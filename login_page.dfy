/** The sign-in form of `src/pages/auth/Login.jsx`: field updates, the two client
    checks in their fixed order, the call to the context's login and the
    role-based navigation that follows. */
module LoginPage {
  import opened Wrappers
  import opened Js
  import opened Gateway
  import Browser
  import AuthService
  import AuthContext

  const FillInMessage := "Please fill in all fields"
  const InvalidEmailMessage := "Please enter a valid email address"
  const LoginFailedFallback := "Invalid email or password"
  const AdminDashboard := "/admin/dashboard"
  const UserDashboard := "/user/dashboard"

  /** A character of `[^\s@]`. */
  predicate AddressChar(c: char) {
    !IsWhitespace(c) && c != '@'
  }

  /** `/^[^\s@]+@[^\s@]+\.[^\s@]+$/.test(s)`: one `@` with a non-empty part before
      it, and after it a dot that is neither the first nor the last character;
      no whitespace and no second `@` anywhere. */
  predicate IsEmailAddress(s: string) {
    exists at, dot ::
      && 0 < at && at + 1 < dot < |s| - 1
      && s[at] == '@' && s[dot] == '.'
      && (forall i :: 0 <= i < |s| && i != at ==> AddressChar(s[i]))
  }

  /** Any three non-empty runs of `[^\s@]` joined as `local@domain.tld` form an
      address the check accepts. */
  lemma AddressFromParts(local: string, domain: string, tld: string)
    requires local != [] && domain != [] && tld != []
    requires forall i :: 0 <= i < |local| ==> AddressChar(local[i])
    requires forall i :: 0 <= i < |domain| ==> AddressChar(domain[i])
    requires forall i :: 0 <= i < |tld| ==> AddressChar(tld[i])
    ensures IsEmailAddress(local + "@" + domain + "." + tld)
  {
    var s := local + "@" + domain + "." + tld;
    var at, dot := |local|, |local| + 1 + |domain|;
    forall i | 0 <= i < |s| && i != at ensures AddressChar(s[i]) {
      if i < at {
        assert s[i] == local[i];
      } else if i < dot {
        assert s[i] == domain[i - at - 1];
      } else if i == dot {
        assert s[i] == '.';
      } else {
        assert s[i] == tld[i - dot - 1];
      }
    }
    assert s[at] == '@' && s[dot] == '.';
  }

  /** The client checks of `handleSubmit`, in order: the error to show, or none
      when the login call may go ahead. */
  function Precheck(username: string, password: string): (r: Option<string>)
    ensures username == "" || password == "" ==> r == Some(FillInMessage)
    ensures username != "" && password != "" && !IsEmailAddress(username) ==> r == Some(InvalidEmailMessage)
    ensures r.None? <==> password != "" && IsEmailAddress(username)
  {
    if username == "" || password == "" then Some(FillInMessage)
    else if !IsEmailAddress(username) then Some(InvalidEmailMessage)
    else None
  }

  /** Where a successful login navigates. */
  function RouteFor(role: Option<string>): (r: Option<string>)
    ensures r == Some(AdminDashboard) <==> role == Some(AuthService.AdminRole)
    ensures r == Some(UserDashboard) <==> role == Some(AuthService.UserRole)
    ensures r.None? <==> role != Some(AuthService.AdminRole) && role != Some(AuthService.UserRole)
  {
    if role == Some(AuthService.AdminRole) then Some(AdminDashboard)
    else if role == Some(AuthService.UserRole) then Some(UserDashboard)
    else None
  }

  datatype Field = Username | Password

  class LoginForm {
    const auth: AuthContext.AuthProvider
    var username: string
    var password: string
    var error: string
    var isLoading: bool

    constructor (auth: AuthContext.AuthProvider)
      ensures this.auth == auth
      ensures username == "" && password == "" && error == "" && !isLoading
    {
      this.auth := auth;
      username, password, error, isLoading := "", "", "", false;
    }

    /** `handleChange`: sets the named field and clears the error. */
    method HandleChange(field: Field, value: string)
      modifies this
      ensures username == (if field == Username then value else old(username))
      ensures password == (if field == Password then value else old(password))
      ensures error == "" && isLoading == old(isLoading)
    {
      match field {
        case Username => username := value;
        case Password => password := value;
      }
      error := "";
    }

    /** `handleSubmit`: validates, calls the context's login only when both checks
      pass, then navigates by role or shows the failure's message. Returns the
      request sent, if any, and the route navigated to, if any. */
    method HandleSubmit(reply: Outcome<AuthService.AuthData>) returns (sent: Option<Request>, route: Option<string>)
      modifies this, auth, auth.storage, auth.window
      ensures username == old(username) && password == old(password) && !isLoading
      ensures sent.None? <==> Precheck(username, password).Some?
      ensures sent.None? ==> error == Precheck(username, password).value && route.None?
      ensures sent.None? ==> unchanged(auth, auth.storage, auth.window)
      ensures sent.Some? ==>
        sent.value == WithToken(PostCall(AuthService.LoginPath, AuthService.Credentials(username, password)), old(auth.storage.GetItem(Browser.TokenKey)))
      ensures sent.Some? ==> auth.storage.items == AuthService.StoreAfter(old(auth.storage.items), reply)
      ensures auth.Current() ==
        if sent.Some? && reply.Fulfilled? then AuthContext.Identity(true, reply.data.role, Some(AuthContext.Profile(reply.data.role)))
        else old(auth.Current())
      ensures auth.window.href == if sent.Some? && Invalidates(reply) then LoginRoute else old(auth.window.href)
      ensures auth.loading == old(auth.loading)
      ensures sent.Some? && reply.Fulfilled? ==> route == RouteFor(reply.data.role) && error == ""
      ensures sent.Some? && reply.Rejected? ==> route.None?
      ensures sent.Some? && reply.Rejected? ==> error == AuthService.FailureMessage(reply.error, AuthService.LoginFallback)
    {
      error := "";
      isLoading := true;
      sent, route := None, None;
      var check := Precheck(username, password);
      if check.Some? {
        error := check.value;
        isLoading := false;
        return;
      }
      var request, r := auth.Login(username, password, reply);
      sent := Some(request);
      match r {
        case Resolved(data) =>
          route := RouteFor(data.role);
        case Thrown(message) =>
          error := if message != "" then message else LoginFailedFallback;
      }
      isLoading := false;
    }
  }

  /** An empty username is reported as a missing field, never as a bad address. */
  lemma EmptyUsernameFirst(password: string)
    ensures Precheck("", password) == Some(FillInMessage)
  {
  }

  /** The page's own fallback message is never shown: every failure the session
      store throws already carries a non-empty message. */
  lemma FallbackUnreachable(e: HttpError)
    ensures AuthService.FailureMessage(e, AuthService.LoginFallback) != ""
  {
  }

  /** One address the check accepts and one it rejects. */
  lemma ExampleAddresses()
    ensures IsEmailAddress("a@b.com")
    ensures !IsEmailAddress("not-an-email")
  {
    AddressFromParts("a", "b", "com");
    assert "a" + "@" + "b" + "." + "com" == "a@b.com";
    var s := "not-an-email";
    assert forall i :: 0 <= i < |s| ==> s[i] != '@';
  }
}
