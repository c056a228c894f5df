/** The authentication context of `src/context/AuthContext.jsx`: UI state derived
    from the session store and kept in step with login and logout. */
module AuthContext {
  import opened Wrappers
  import opened Js
  import opened Browser
  import opened Gateway
  import AuthService

  /** The minimal profile the context keeps: `{ role }`. */
  datatype Profile = Profile(role: Option<string>)

  /** The context's state fields other than `loading`, as one value. */
  datatype Identity = Identity(isAuthenticated: bool, role: Option<string>, user: Option<Profile>)

  const SignedOut := Identity(false, None, None)

  /** What `checkAuth` derives from the store: signed in with the stored role only
      when both the stored token and the stored role are truthy. */
  function Derive(items: map<string, string>): (id: Identity)
    ensures id.isAuthenticated <==> TokenKey in items && items[TokenKey] != "" && RoleKey in items && items[RoleKey] != ""
    ensures id.isAuthenticated ==> id.role == Some(items[RoleKey]) && id.user == Some(Profile(id.role))
    ensures !id.isAuthenticated ==> id == SignedOut
  {
    var token := if TokenKey in items then Some(items[TokenKey]) else None;
    var role := if RoleKey in items then Some(items[RoleKey]) else None;
    if Truthy(token) && Truthy(role) then Identity(true, role, Some(Profile(role))) else SignedOut
  }

  /** On a consistent store the derived identity agrees with the store's own role
      predicates, and signing in implies the store is authenticated. */
  lemma DeriveAgreesWithStore(storage: LocalStorage)
    requires AuthService.SessionConsistent(storage.items)
    ensures Derive(storage.items).isAuthenticated ==> AuthService.IsAuthenticated(storage)
    ensures Derive(storage.items).role == Some(AuthService.AdminRole) <==> AuthService.IsAdmin(storage)
    ensures Derive(storage.items).role == Some(AuthService.UserRole) <==> AuthService.IsUser(storage)
  {
    var items := storage.items;
    if AuthService.IsAdmin(storage) || AuthService.IsUser(storage) {
      assert RoleKey in items && items[RoleKey] != "";
      assert TokenKey in items && items[TokenKey] != "";
    }
  }

  class AuthProvider {
    const storage: LocalStorage
    const window: Window
    var isAuthenticated: bool
    var user: Option<Profile>
    var role: Option<string>
    var loading: bool

    function Current(): Identity
      reads this
    {
      Identity(isAuthenticated, role, user)
    }

    /** The provider's initial state, before the mount effect runs `checkAuth`. */
    constructor (storage: LocalStorage, window: Window)
      ensures this.storage == storage && this.window == window
      ensures Current() == SignedOut && loading
    {
      this.storage := storage;
      this.window := window;
      isAuthenticated := false;
      user := None;
      role := None;
      loading := true;
    }

    /** `checkAuth()`: reads token and role from the store and sets the state from
      them; loading ends on both branches. */
    method CheckAuth()
      modifies this
      ensures Current() == Derive(storage.items) && !loading
    {
      var token := AuthService.GetToken(storage);
      var stored := AuthService.GetRole(storage);
      if token.Some? && token.value != "" && stored.Some? && stored.value != "" {
        isAuthenticated := true;
        role := stored;
        user := Some(Profile(stored));
      } else {
        isAuthenticated := false;
        role := None;
        user := None;
      }
      loading := false;
    }

    /** `login(email, password)`: on success the state takes the reply's role, even
      when the reply carried no token; on failure the error is re-thrown and the
      state is left as it was. */
    method Login(email: string, password: string, reply: Outcome<AuthService.AuthData>)
      returns (sent: Request, r: AuthService.AuthResult)
      modifies this, storage, window
      ensures sent == WithToken(PostCall(AuthService.LoginPath, AuthService.Credentials(email, password)), old(storage.GetItem(TokenKey)))
      ensures r == AuthService.Settle(reply, AuthService.LoginFallback)
      ensures storage.items == AuthService.StoreAfter(old(storage.items), reply)
      ensures window.href == if Invalidates(reply) then LoginRoute else old(window.href)
      ensures reply.Fulfilled? ==> Current() == Identity(true, reply.data.role, Some(Profile(reply.data.role)))
      ensures reply.Rejected? ==> Current() == old(Current())
      ensures loading == old(loading)
    {
      sent, r := AuthService.Login(storage, window, email, password, reply);
      if r.Resolved? {
        isAuthenticated := true;
        role := r.data.role;
        user := Some(Profile(r.data.role));
      }
    }

    /** `logout()`: clears the store and signs the state out. */
    method Logout()
      modifies this, storage
      ensures storage.items == old(storage.items) - SessionKeys
      ensures Current() == SignedOut && loading == old(loading)
    {
      AuthService.Logout(storage);
      isAuthenticated := false;
      role := None;
      user := None;
    }

    /** `isAdmin()`: compares the context's role, not the store's. */
    function IsAdmin(): (b: bool)
      reads this
      ensures b ==> role.Some?
    {
      role == Some(AuthService.AdminRole)
    }

    /** `isUser()`: compares the context's role, not the store's. */
    function IsUser(): (b: bool)
      reads this
      ensures b ==> !IsAdmin()
    {
      role == Some(AuthService.UserRole)
    }
  }

  /** Once `checkAuth` has run on a consistent store, the context's `isAdmin` and
      `isUser` answer exactly as the session store's own predicates do. */
  lemma ContextRolesAgree(p: AuthProvider)
    requires p.Current() == Derive(p.storage.items)
    requires AuthService.SessionConsistent(p.storage.items)
    ensures p.IsAdmin() <==> AuthService.IsAdmin(p.storage)
    ensures p.IsUser() <==> AuthService.IsUser(p.storage)
  {
    DeriveAgreesWithStore(p.storage);
  }
}
