/** The session store of `src/service/authService.js`: login and register through
    the gateway, logout, and the readers over `localStorage`. */
module AuthService {
  import opened Wrappers
  import opened Js
  import opened Browser
  import opened Gateway

  const LoginPath := "/auth/login"
  const RegisterPath := "/auth/register"
  const AdminRole := "ADMIN"
  const UserRole := "USER"

  const LoginFallback := "Login failed"
  const RegisterFallback := "Registration failed"
  const NoResponseMessage := "No response from server. Please check your connection."
  const GenericMessage := "An error occurred. Please try again."

  /** The body of a login or register reply: `{ token, role }`, either possibly missing. */
  datatype AuthData = AuthData(token: Option<string>, role: Option<string>)

  /** What `login`/`register` resolve with, or the message of the Error they throw. */
  datatype AuthResult = Resolved(data: AuthData) | Thrown(message: string)

  /** The session invariant: a token is stored exactly when a role is, and a stored
      token is never the empty string. */
  predicate SessionConsistent(items: map<string, string>) {
    && (TokenKey in items <==> RoleKey in items)
    && (TokenKey in items ==> items[TokenKey] != "")
  }

  /** The string `localStorage.setItem` stores for a value that may be undefined. */
  function StoredText(v: Option<string>): (r: string)
    ensures v.Some? ==> r == v.value
  {
    match v
    case Some(s) => s
    case None => "undefined"
  }

  /** The store after a fulfilled reply: token and role are written only when the
      reply's token is truthy; no other key is touched. */
  function Persist(items: map<string, string>, data: AuthData): (r: map<string, string>)
    ensures Truthy(data.token) ==> TokenKey in r && r[TokenKey] == data.token.value
    ensures Truthy(data.token) ==> RoleKey in r && r[RoleKey] == StoredText(data.role)
    ensures !Truthy(data.token) ==> r == items
    ensures forall k :: k != TokenKey && k != RoleKey ==> (k in r <==> k in items)
    ensures forall k :: k != TokenKey && k != RoleKey && k in items ==> r[k] == items[k]
    ensures SessionConsistent(items) ==> SessionConsistent(r)
  {
    if Truthy(data.token) then items[TokenKey := data.token.value][RoleKey := StoredText(data.role)]
    else items
  }

  /** The message of the Error a failed login or register throws, by bucket: the
      server's message (or the call's fallback), no response, or anything else. */
  function FailureMessage(e: HttpError, fallback: string): (m: string)
    ensures e.ErrorResponse? && Truthy(e.message) ==> m == e.message.value
    ensures e.ErrorResponse? && !Truthy(e.message) ==> m == fallback
    ensures e.NoResponse? ==> m == NoResponseMessage
    ensures e.SetupFailure? ==> m == GenericMessage
    ensures fallback != "" ==> m != ""
  {
    match e
    case ErrorResponse(_, message) => if Truthy(message) then message.value else fallback
    case NoResponse => NoResponseMessage
    case SetupFailure(_) => GenericMessage
  }

  /** How a login or register call settles for a given reply. */
  function Settle(reply: Outcome<AuthData>, fallback: string): (r: AuthResult)
    ensures r.Resolved? <==> reply.Fulfilled?
    ensures r.Resolved? ==> r.data == reply.data
    ensures r.Thrown? ==> r.message == FailureMessage(reply.error, fallback)
  {
    match reply
    case Fulfilled(data) => Resolved(data)
    case Rejected(e) => Thrown(FailureMessage(e, fallback))
  }

  /** The store after a login or register call: the fulfilled reply is persisted, a
      401 has cleared the session in the gateway, any other failure leaves it alone. */
  function StoreAfter(items: map<string, string>, reply: Outcome<AuthData>): (r: map<string, string>)
    ensures reply.Fulfilled? ==> r == Persist(items, reply.data)
    ensures reply.Rejected? && !Invalidates(reply) ==> r == items
    ensures Invalidates(reply) ==> r == items - SessionKeys
    ensures SessionConsistent(items) ==> SessionConsistent(r)
  {
    match reply
    case Fulfilled(data) => Persist(items, data)
    case Rejected(_) => if Invalidates(reply) then items - SessionKeys else items
  }

  /** The body of the login request. */
  function Credentials(email: string, password: string): Payload {
    Json([("email", email), ("password", password)])
  }

  /** The part `login` and `register` share: send the call, persist a fulfilled
      reply whose token is truthy, and turn a failure into its message. */
  method Authenticate(storage: LocalStorage, window: Window, call: Request, fallback: string, reply: Outcome<AuthData>)
    returns (sent: Request, r: AuthResult)
    modifies storage, window
    ensures sent == WithToken(call, old(storage.GetItem(TokenKey)))
    ensures r == Settle(reply, fallback)
    ensures storage.items == StoreAfter(old(storage.items), reply)
    ensures window.href == if Invalidates(reply) then LoginRoute else old(window.href)
  {
    var outcome;
    sent, outcome := Send(storage, window, call, reply);
    match outcome
    case Fulfilled(data) =>
      if data.token.Some? && data.token.value != "" {
        storage.SetItem(TokenKey, data.token.value);
        storage.SetItem(RoleKey, StoredText(data.role));
      }
      r := Resolved(data);
    case Rejected(e) =>
      r := Thrown(FailureMessage(e, fallback));
  }

  /** `authService.login(email, password)`. */
  method Login(storage: LocalStorage, window: Window, email: string, password: string, reply: Outcome<AuthData>)
    returns (sent: Request, r: AuthResult)
    modifies storage, window
    ensures sent == WithToken(PostCall(LoginPath, Credentials(email, password)), old(storage.GetItem(TokenKey)))
    ensures r == Settle(reply, LoginFallback)
    ensures storage.items == StoreAfter(old(storage.items), reply)
    ensures window.href == if Invalidates(reply) then LoginRoute else old(window.href)
  {
    sent, r := Authenticate(storage, window, PostCall(LoginPath, Credentials(email, password)), LoginFallback, reply);
  }

  /** `authService.register(formData)`: a multipart upload. */
  method Register(storage: LocalStorage, window: Window, form: seq<(string, FormValue)>, reply: Outcome<AuthData>)
    returns (sent: Request, r: AuthResult)
    modifies storage, window
    ensures sent == WithToken(UploadCall(RegisterPath, form), old(storage.GetItem(TokenKey)))
    ensures r == Settle(reply, RegisterFallback)
    ensures storage.items == StoreAfter(old(storage.items), reply)
    ensures window.href == if Invalidates(reply) then LoginRoute else old(window.href)
  {
    sent, r := Authenticate(storage, window, UploadCall(RegisterPath, form), RegisterFallback, reply);
  }

  /** `authService.logout()`: removes token, role and user, nothing else. */
  method Logout(storage: LocalStorage)
    modifies storage
    ensures storage.items == old(storage.items) - SessionKeys
  {
    storage.RemoveItem(TokenKey);
    storage.RemoveItem(RoleKey);
    storage.RemoveItem(UserKey);
  }

  /** `getToken()`. */
  function GetToken(storage: LocalStorage): (r: Option<string>)
    reads storage
    ensures r.Some? <==> TokenKey in storage.items
    ensures r.Some? ==> r.value == storage.items[TokenKey]
  {
    storage.GetItem(TokenKey)
  }

  /** `getRole()`. */
  function GetRole(storage: LocalStorage): (r: Option<string>)
    reads storage
    ensures r.Some? <==> RoleKey in storage.items
    ensures r.Some? ==> r.value == storage.items[RoleKey]
  {
    storage.GetItem(RoleKey)
  }

  /** `isAuthenticated()`: `!!token`. */
  function IsAuthenticated(storage: LocalStorage): (b: bool)
    reads storage
    ensures b <==> TokenKey in storage.items && storage.items[TokenKey] != ""
  {
    Truthy(GetToken(storage))
  }

  /** `isAdmin()`: `role === 'ADMIN'`. */
  function IsAdmin(storage: LocalStorage): (b: bool)
    reads storage
    ensures b <==> RoleKey in storage.items && storage.items[RoleKey] == AdminRole
  {
    GetRole(storage) == Some(AdminRole)
  }

  /** `isUser()`: `role === 'USER'`. */
  function IsUser(storage: LocalStorage): (b: bool)
    reads storage
    ensures b <==> RoleKey in storage.items && storage.items[RoleKey] == UserRole
  {
    GetRole(storage) == Some(UserRole)
  }

  /** Logging out a second time changes nothing. */
  lemma LogoutIdempotent(items: map<string, string>)
    ensures (items - SessionKeys) - SessionKeys == items - SessionKeys
    ensures SessionConsistent(items - SessionKeys)
  {
  }

  /** The two role predicates never hold together, and neither holds without a role. */
  lemma RolesExclusive(storage: LocalStorage)
    ensures !(IsAdmin(storage) && IsUser(storage))
    ensures RoleKey !in storage.items ==> !IsAdmin(storage) && !IsUser(storage)
  {
  }

  /** In a consistent store a token is present exactly when a role is, so every
      role predicate implies authentication. */
  lemma ConsistentStoreRoles(storage: LocalStorage)
    requires SessionConsistent(storage.items)
    ensures IsAuthenticated(storage) <==> GetRole(storage).Some?
    ensures IsAdmin(storage) || IsUser(storage) ==> IsAuthenticated(storage)
  {
  }

  /** The three failure buckets give three different messages whenever the server's
      own message differs from the other two. */
  lemma FailureBucketsDistinct(status: int, message: Option<string>, reason: string, fallback: string)
    requires fallback != NoResponseMessage && fallback != GenericMessage
    requires message.Some? ==> message.value != NoResponseMessage && message.value != GenericMessage
    ensures FailureMessage(ErrorResponse(status, message), fallback) != FailureMessage(NoResponse, fallback)
    ensures FailureMessage(ErrorResponse(status, message), fallback) != FailureMessage(SetupFailure(reason), fallback)
    ensures FailureMessage(NoResponse, fallback) != FailureMessage(SetupFailure(reason), fallback)
  {
  }
}
