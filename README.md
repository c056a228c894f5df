# gemora-web session, sign-in and admin logic in Dafny

This project models the logic of the gemora-web React portal. Markup is not modelled.

- **Session store** (`src/service/authService.js`). `login` and `register` write the token and role to `localStorage`. `logout` removes them. Readers answer whether someone is signed in and as which role.
- **HTTP gateway** (`src/service/axiosConfig.js`). The request interceptor attaches `Authorization: Bearer <token>`, the credential format of section 2.1 of RFC 6750. The response interceptor ends the session on a 401 and re-rejects every error. The helper calls build the requests.
- **Authentication context** (`src/context/AuthContext.jsx`). UI state is derived from the store by `checkAuth` and kept in step by `login` and `logout`.
- **Sign-in page** (`src/pages/auth/Login.jsx`). Two client checks run in a fixed order, then the context's login, then navigation by role.
- **Sign-up page** (`src/pages/auth/Register.jsx`):
  - the step-1 field rules;
  - the size and type check on the three identity images;
  - the 1..4 step counter;
  - the multipart body;
  - register-then-sign-in.
- **Admin pages** (`Tickets.jsx`, `ListedGems.jsx`, `UserManage.jsx`, `GemManage.jsx`):
  - list loading;
  - detail views;
  - order-preserving delete by id;
  - the one-ticket rewrite after a reply;
  - two-key filtering and counting;
  - badge lookups with a default;
  - the `fixImageUrl` host rewrite, which is proved against the regular expression it implements.

Modules follow the source, one file each:

- `wrappers.dfy`, `js.dfy` and `lists.dfy` hold JavaScript semantics the code relies on: truthiness, `\s` and `trim()`, UTF-16 `length`, `err.message || fallback`, and `Array.prototype.filter`.
- `browser.dfy` holds `localStorage` and `window.location` as classes.
- `gateway.dfy`, `auth_service.dfy` and `auth_context.dfy` model the gateway, the session store and the context.
- `login_page.dfy` and `register_page.dfy` model the two auth pages.
- `admin_common.dfy` holds helpers the admin pages define for themselves:
  - `fixImageUrl` is identical in all three admin pages;
  - the listing badge and the `N/A` date branch are in `ListedGems.jsx` and `GemManage.jsx`;
  - the verified mark is only in `ListedGems.jsx`;
  - delete-by-id is in `ListedGems.jsx` and `UserManage.jsx`.
- `tickets.dfy`, `listed_gems.dfy`, `user_manage.dfy` and `gem_manage.dfy` model the four admin pages.

React state becomes fields of a class per page. Each handler becomes a method whose `ensures` gives the whole new state. Backend replies are method parameters:

- `Outcome` for calls through the gateway;
- `Option<Thrown>` or `Result<_, Thrown>` for the admin service calls.

The network, timers and the DOM are not modelled.

Where the code and its documented intent differ, the model follows the code:

- A 401 reply to the login or register call itself goes through the gateway's response interceptor first. That interceptor removes `token`, `role` and `user` and sends the browser to `/login`, so a failed sign-in does not always leave the store as it was (`AuthService.StoreAfter`).
- The admin service wrappers throw bare strings. `err.message || fallback` on such a value always gives the page's own fallback (`Js.MessageOr`).
- The Login page's `'Invalid email or password'` fallback can never be shown. Every message the session store throws is non-empty (`LoginPage.FallbackUnreachable`).

## Model

| member | source | states |
|---|---|---|
| Js.TrimEmptyIffBlank | src/pages/auth/Register.jsx:123 | `!s.trim()` holds exactly when every character of `s` is `\s` whitespace |
| Js.IsBlank | src/pages/admin/Tickets.jsx:56 | the blank check is true exactly when the text is whitespace only |
| Js.Utf16Length | src/pages/auth/Register.jsx:141 | `length` lies between the number of characters and twice it, and equals it when every character is in the Basic Multilingual Plane |
| Js.MessageOr | src/pages/admin/ListedGems.jsx:63 | a thrown string always yields the fallback; an Error with a non-empty message yields that message; the result is empty only when the fallback is |
| Lists.Filter | src/pages/admin/Tickets.jsx:129-133 | the result is no longer than the list, holds only list elements the predicate accepts, and holds every accepted element (membership only; order and multiplicity are stated by `Lists.FilterConcat`) |
| Lists.FilterConcat | src/pages/admin/ListedGems.jsx:56 | filtering a joined list joins the filtered parts, so kept elements stay in order |
| Lists.FilterKeepsAll | src/pages/admin/Tickets.jsx:129-133 | a predicate that accepts everything returns the list itself |
| Lists.FilterAgrees | src/pages/admin/Tickets.jsx:137 | two predicates that agree on every element filter the list identically |
| Lists.FilterIdempotent | src/pages/admin/ListedGems.jsx:56 | filtering twice with the same predicate is filtering once |
| Browser.LocalStorage.GetItem | src/service/authService.js:78 | `getItem` returns the stored string exactly when the key is present, and `null` otherwise |
| Browser.LocalStorage.SetItem | src/service/authService.js:19-20 | `setItem` writes one key and keeps every other |
| Browser.LocalStorage.RemoveItem | src/service/authService.js:68-70 | `removeItem` drops one key, and removing an absent key is a no-op |
| Gateway.GetCall | src/service/axiosConfig.js:93-95 | a GET carries the URL, no body, and the default headers overridden by the config's |
| Gateway.PostCall | src/service/axiosConfig.js:104-106 | a POST carries the URL and the given body (`{}` by default) under the configured headers |
| Gateway.PutCall | src/service/axiosConfig.js:115-117 | a PUT carries the URL and the given body (`{}` by default) under the configured headers |
| Gateway.PatchCall | src/service/axiosConfig.js:126-128 | a PATCH carries the URL and the given body (`{}` by default) under the configured headers |
| Gateway.DeleteCall | src/service/axiosConfig.js:136-138 | a DELETE carries the URL, no body, and the configured headers |
| Gateway.UploadCall | src/service/axiosConfig.js:147-154 | an upload is a POST of the multipart body whose only header is `Content-Type: multipart/form-data`, overriding the JSON default |
| Gateway.DefaultsAreJson | src/service/axiosConfig.js:9-15 | calls with default arguments send `{}` and the `application/json` content type; an upload sends the multipart type |
| Gateway.ParseBearer | src/service/axiosConfig.js:25 | a header value parses exactly when it starts with `Bearer `, and is that prefix followed by the parsed token |
| Gateway.BearerCredential | src/service/axiosConfig.js:25 | the credential built for a token parses back to that token (round trip) |
| Gateway.WithToken | src/service/axiosConfig.js:23-27 | with a truthy token the `Authorization` header carries it as a bearer credential; otherwise the request is unchanged; verb, URL, body and every other header are kept |
| Gateway.InterceptRequest | src/service/axiosConfig.js:21-28 | the request interceptor reads the stored token and leaves the request as `WithToken` describes |
| Gateway.Classify | src/service/axiosConfig.js:44-77 | each error falls in exactly one branch: 401, 403, 404, 500, other status, no response, or request setup |
| Gateway.InterceptResponse | src/service/axiosConfig.js:38-81 | every outcome is passed on as it came; only a 401 removes `token`, `role` and `user` and sets the location to `/login`; everything else leaves store and location alone |
| Gateway.Send | src/service/axiosConfig.js:21-81 | one call is the request interceptor over the stored token, then the response interceptor over the reply |
| AuthService.StoredText | src/service/authService.js:20 | a present role is stored as itself; an absent one is stored as the text `undefined` |
| AuthService.Persist | src/service/authService.js:18-21 | token and role are written only for a truthy token, no other key changes, and session consistency (token iff role, token non-empty) is preserved |
| AuthService.FailureMessage | src/service/authService.js:26-32 | a server reply gives its message or the call's fallback, no reply gives the connection message, anything else the generic one; the message is never empty when the fallback is not |
| AuthService.Settle | src/service/authService.js:23-32 | a call resolves exactly when the reply is fulfilled, with the reply data unchanged, and otherwise throws the bucket's message |
| AuthService.StoreAfter | src/service/authService.js:11-33 | a fulfilled reply is persisted; after a 401 the store is the old one minus the session keys, every other key keeping its value; any other failure leaves the store; consistency is preserved |
| AuthService.Authenticate | src/service/authService.js:10-33 | the shared login/register path sends the call through the gateway, settles it and leaves the store as `StoreAfter` says |
| AuthService.Login | src/service/authService.js:10-34 | `login` posts the credentials to `/auth/login` with the `Login failed` fallback; store and location as `StoreAfter` and the gateway say |
| AuthService.Register | src/service/authService.js:41-62 | `register` uploads the form to `/auth/register` with the `Registration failed` fallback; store and location as `StoreAfter` and the gateway say |
| AuthService.Logout | src/service/authService.js:67-71 | `logout` removes exactly `token`, `role` and `user` |
| AuthService.GetToken | src/service/authService.js:77-79 | returns the stored token exactly when one is stored |
| AuthService.GetRole | src/service/authService.js:85-87 | returns the stored role exactly when one is stored |
| AuthService.IsAuthenticated | src/service/authService.js:93-96 | true exactly when a non-empty token is stored |
| AuthService.IsAdmin | src/service/authService.js:102-105 | true exactly when the stored role is `ADMIN` |
| AuthService.IsUser | src/service/authService.js:111-114 | true exactly when the stored role is `USER` |
| AuthService.LogoutIdempotent | src/service/authService.js:67-71 | logging out twice leaves what logging out once left, and a logged-out store is consistent |
| AuthService.RolesExclusive | src/service/authService.js:102-114 | `isAdmin` and `isUser` never both hold, and neither holds without a stored role |
| AuthService.ConsistentStoreRoles | src/service/authService.js:93-114 | in a consistent store a token is present exactly when a role is, so either role predicate implies authentication |
| AuthService.FailureBucketsDistinct | src/service/authService.js:26-32 | the three failure buckets give three different messages |
| AuthContext.Derive | src/context/AuthContext.jsx:17-31 | signed in, with the stored role and a `{role}` user, exactly when both stored token and role are truthy; otherwise signed out with no role or user |
| AuthContext.DeriveAgreesWithStore | src/context/AuthContext.jsx:17-29 | on a consistent store the derived identity agrees with the store's `isAdmin`/`isUser`, and a derived sign-in implies `isAuthenticated` |
| AuthContext.AuthProvider.constructor | src/context/AuthContext.jsx:7-10 | the provider starts signed out and loading |
| AuthContext.AuthProvider.CheckAuth | src/context/AuthContext.jsx:17-31 | the state becomes `Derive` of the store and loading ends |
| AuthContext.AuthProvider.Login | src/context/AuthContext.jsx:33-45 | on success the state takes the reply's role; on failure the error is re-thrown and the state is unchanged; the store changes as the session store's login says |
| AuthContext.AuthProvider.Logout | src/context/AuthContext.jsx:47-52 | removes the session keys and signs the state out |
| AuthContext.AuthProvider.IsAdmin | src/context/AuthContext.jsx:61 | reads the context's role, not the store: an admin context has a role |
| AuthContext.AuthProvider.IsUser | src/context/AuthContext.jsx:62 | reads the context's role; a user context is never an admin context |
| AuthContext.ContextRolesAgree | src/context/AuthContext.jsx:61-62 | once `checkAuth` has set the state from a consistent store, the context's `isAdmin` and `isUser` are exactly the store's `isAdmin` and `isUser` |
| LoginPage.AddressFromParts | src/pages/auth/Login.jsx:39-40 | any `local@domain.tld` built from non-empty runs of non-space, non-`@` characters passes the address check |
| LoginPage.Precheck | src/pages/auth/Login.jsx:32-44 | an empty field gives the fill-in message, otherwise a bad address gives the address message, and the call goes ahead exactly when the password is non-empty and the address is valid |
| LoginPage.RouteFor | src/pages/auth/Login.jsx:51-55 | `ADMIN` goes to `/admin/dashboard`, `USER` to `/user/dashboard`, any other role nowhere |
| LoginPage.LoginForm.constructor | src/pages/auth/Login.jsx:10-16 | the form starts empty, with no error and not loading |
| LoginPage.LoginForm.HandleChange | src/pages/auth/Login.jsx:18-24 | sets only the named field and clears the error |
| LoginPage.LoginForm.HandleSubmit | src/pages/auth/Login.jsx:26-61 | no call is made exactly when a check fails, and then its message is shown and nothing else changes; otherwise it posts the typed username and password to `/auth/login`; on success the context takes the reply's role and the page navigates by role; on failure the context is unchanged and the store's message is shown; the location changes only on a 401; loading ends on every path |
| LoginPage.EmptyUsernameFirst | src/pages/auth/Login.jsx:32-44 | an empty username always gets the fill-in message, never the address message |
| LoginPage.FallbackUnreachable | src/pages/auth/Login.jsx:57 | every message a failed login throws is non-empty, so the page's fallback is never used |
| LoginPage.ExampleAddresses | src/pages/auth/Login.jsx:39-40 | `a@b.com` passes the address check and `not-an-email` fails it |
| RegisterPage.LoginAddressIsLooseEmail | src/pages/auth/Register.jsx:129 | every address the sign-in page accepts also passes the sign-up page's looser `\S+@\S+\.\S+` |
| RegisterPage.EmailRule | src/pages/auth/Register.jsx:127-131 | the email gets no message exactly when it matches `\S+@\S+\.\S+`: the blank check is subsumed |
| RegisterPage.ContactRule | src/pages/auth/Register.jsx:133-137 | the contact number gets no message exactly when it is ten ASCII digits |
| RegisterPage.PasswordRule | src/pages/auth/Register.jsx:139-143 | the password gets no message exactly when its UTF-16 length is at least 6 |
| RegisterPage.Step1ValidIffNoMessage | src/pages/auth/Register.jsx:123-149 | no field gets a message exactly when the name is not blank, the email and contact number match their patterns, the password is long enough and the confirmation equals it |
| RegisterPage.CollectStep1Errors | src/pages/auth/Register.jsx:121-150 | the collected errors hold exactly each field's message, only field keys, and are empty exactly when step 1 is valid |
| RegisterPage.NoErrorsIffValid | src/pages/auth/Register.jsx:151-152 | errors that mirror the step-1 rules are empty exactly when the form is valid |
| RegisterPage.FileRejection | src/pages/auth/Register.jsx:64-80 | a file over 5 MB gets the size message before the type check, otherwise a non-`image/` type gets the type message, and a file is accepted exactly when it passes both |
| RegisterPage.SubmitEntriesShape | src/pages/auth/Register.jsx:179-194 | the body starts with name, email, password and contact number, then holds an entry under a slot's key exactly when that slot has a file, and only files |
| RegisterPage.RegisterForm.constructor | src/pages/auth/Register.jsx:12-40 | the form starts at step 1 with empty fields, files, previews and errors |
| RegisterPage.RegisterForm.HandleInputChange | src/pages/auth/Register.jsx:45-58 | sets one field and clears that field's error only if one is shown |
| RegisterPage.RegisterForm.HandleFileChange | src/pages/auth/Register.jsx:61-105 | a rejected file only sets its slot's error; an accepted one fills its own slot and clears that slot's shown error; no file changes nothing |
| RegisterPage.RegisterForm.RemoveFile | src/pages/auth/Register.jsx:108-117 | empties one slot's file and preview and nothing else |
| RegisterPage.RegisterForm.ValidateStep1 | src/pages/auth/Register.jsx:120-153 | replaces the errors with each field's step-1 message and returns true exactly when there are none, which is exactly when step 1 is valid |
| RegisterPage.RegisterForm.HandleNext | src/pages/auth/Register.jsx:156-164 | step 1 advances only when valid, later steps always; at step 1 the errors become exactly the step-1 messages, empty exactly when it advances; later steps keep the errors; the step stays within 1..4 |
| RegisterPage.RegisterForm.HandlePrevious | src/pages/auth/Register.jsx:167-169 | goes back one step, staying within 1..4 |
| RegisterPage.RegisterForm.BuildSubmitData | src/pages/auth/Register.jsx:179-194 | the appended `FormData` is the four text fields followed by the present images in slot order |
| RegisterPage.RegisterForm.HandleSubmit | src/pages/auth/Register.jsx:172-209 | uploads that body with the multipart type; signs in only after a successful registration, posting the form's email and password with the token the registration left in the store; the first failure's message is the only error; the context takes the login reply's role only when both calls succeed and is otherwise unchanged; the location changes only on a 401; the dashboard is reached only when both calls succeed; loading ends |
| RegisterPage.RegisterForm.SignIn | src/pages/auth/Register.jsx:199-203 | posts the form's email and password to `/auth/login` with the stored token; on success the context takes the reply's role and the page routes to `/user/dashboard`; on failure the context is unchanged and the failure is recorded under `submit`; the location changes only on a 401 |
| AdminCommon.MatchEnd | src/pages/admin/ListedGems.jsx:17 | a match found at a position ends after it and within the string |
| AdminCommon.MatchEndSound | src/pages/admin/ListedGems.jsx:17 | what the matcher finds is a word of `http://192\.168\.\d+\.\d+:8080` |
| AdminCommon.MatchEndComplete | src/pages/admin/ListedGems.jsx:17 | every word of the pattern starting at a position is the one the matcher finds there |
| AdminCommon.FirstMatch | src/pages/admin/ListedGems.jsx:17 | the leftmost match at or after a position, with none earlier, or none at all |
| AdminCommon.ReplaceWithoutMatch | src/pages/admin/ListedGems.jsx:15-18 | with no word of the pattern anywhere, the string is returned unchanged |
| AdminCommon.ReplaceLeftmostMatch | src/pages/admin/ListedGems.jsx:15-18 | when the pattern occurs, the leftmost word is replaced by `http://localhost:8080` and everything before and after it is kept |
| AdminCommon.FixImageUrl | src/pages/admin/ListedGems.jsx:15-18 | `null` exactly for an absent or empty URL, otherwise the URL with its first private host rewritten |
| AdminCommon.FixImageUrlExample | src/pages/admin/UserManage.jsx:15-19 | `http://192.168.1.20:8080/a.png` becomes `http://localhost:8080/a.png` |
| AdminCommon.ListingTypeBadge | src/pages/admin/ListedGems.jsx:69-73 | blue exactly for `SALE`, purple for every other or absent type |
| AdminCommon.AnyVerified | src/pages/admin/ListedGems.jsx:190 | `some(cert => cert.verified)` holds exactly when some certificate is verified |
| AdminCommon.IsVerifiedMeaning | src/pages/admin/ListedGems.jsx:190 | a gem shows as verified exactly when it has a certificate list with a verified certificate on it |
| AdminCommon.FormatDate | src/pages/admin/GemManage.jsx:60-61 | `N/A` exactly for an absent or empty date; otherwise the date itself is what gets rendered |
| AdminCommon.WithoutId | src/pages/admin/ListedGems.jsx:56 | drops exactly the items with that id and keeps every other one |
| AdminCommon.WithoutIdLaws | src/pages/admin/UserManage.jsx:64 | deleting twice is deleting once, deleting an absent id changes nothing, and survivors keep their order |
| Tickets.FilteredTickets | src/pages/admin/Tickets.jsx:129-133 | shows exactly the tickets that pass both filters, `ALL` passing everything |
| Tickets.FilteredTicketsLaws | src/pages/admin/Tickets.jsx:129-133 | with both filters at `ALL` the whole list is shown, and filtering keeps list order |
| Tickets.StatusCount | src/pages/admin/Tickets.jsx:135-138 | the count of `ALL` is the list length, and no count exceeds it |
| Tickets.StatusCountIsFilteredLength | src/pages/admin/Tickets.jsx:135-138 | each status count is the length of the list the status filter alone would show |
| Tickets.ReplaceTicket | src/pages/admin/Tickets.jsx:73-77 | same length and ids; tickets with the replied id get the reply and status, every other ticket is unchanged in place |
| Tickets.ReplaceTicketLaws | src/pages/admin/Tickets.jsx:73-84 | replying twice equals replying once, and the list's copy of the open ticket equals the updated open ticket |
| Tickets.StatusBadge | src/pages/admin/Tickets.jsx:99-107 | the table's class for each status in the table; grey exactly for `CLOSED` and for statuses outside the table |
| Tickets.PriorityBadge | src/pages/admin/Tickets.jsx:109-116 | the table's class for a known priority, grey exactly for unknown ones |
| Tickets.StatusLabel | src/pages/admin/Tickets.jsx:319 | only the first `_` becomes a space; every other character is kept |
| Tickets.StatusLabelDropsOne | src/pages/admin/Tickets.jsx:319 | the label has one `_` fewer than the status when it has any, and as many when it has none |
| Tickets.TicketsPage.constructor | src/pages/admin/Tickets.jsx:6-17 | the page starts loading, with both filters at `ALL` and the reply status `IN_PROGRESS` |
| Tickets.TicketsPage.Shown | src/pages/admin/Tickets.jsx:304 | the table rows are the tickets passing the current filters |
| Tickets.TicketsPage.FetchTickets | src/pages/admin/Tickets.jsx:23-37 | the loaded list replaces the tickets, or the error is set and the list kept; loading ends |
| Tickets.TicketsPage.HandleViewTicket | src/pages/admin/Tickets.jsx:39-42 | selects the ticket and opens the view, nothing else |
| Tickets.TicketsPage.HandleCloseModal | src/pages/admin/Tickets.jsx:44-51 | closes the view and resets the selection, reply form, text, `IN_PROGRESS` status and success message |
| Tickets.TicketsPage.HandleReplySubmit | src/pages/admin/Tickets.jsx:53-97 | a blank reply only sets the required message and makes no call; otherwise the call goes out, and on success the ticket is rewritten in the list and the view and the form is reset; on failure only the error changes |
| Tickets.TicketsPage.SendReply | src/pages/admin/Tickets.jsx:61-96 | the reply call and its success and failure effects |
| ListedGems.ListedGemsPage.constructor | src/pages/admin/ListedGems.jsx:6-13 | the page starts loading, with nothing selected and no pending delete |
| ListedGems.ListedGemsPage.FetchApprovedGems | src/pages/admin/ListedGems.jsx:24-38 | the loaded list replaces the gems, or the error is set and the list kept; loading ends |
| ListedGems.ListedGemsPage.HandleViewGem | src/pages/admin/ListedGems.jsx:40-43 | selects the gem and opens the view, nothing else |
| ListedGems.ListedGemsPage.HandleCloseModal | src/pages/admin/ListedGems.jsx:45-48 | closes the view and clears the selection, nothing else |
| ListedGems.ListedGemsPage.HandleDeleteGem | src/pages/admin/ListedGems.jsx:50-67 | a success drops the gem, clears the confirmation and closes the view exactly when it showed that gem; a failure only sets the error; `deleteLoading` ends false |
| ListedGems.DeleteLeavesOthers | src/pages/admin/ListedGems.jsx:56 | after a delete no gem has that id and every other gem is still listed |
| UserManage.RoleBadgeColor | src/pages/admin/UserManage.jsx:75-79 | purple exactly for `ADMIN`, blue for every other role |
| UserManage.DocumentsAvailableMeaning | src/pages/admin/UserManage.jsx:183 | documents show as available exactly when some document has a URL, and the detail view's no-documents notice appears exactly otherwise |
| UserManage.DeleteOffered | src/pages/admin/UserManage.jsx:459 | Delete is offered exactly to users who carry the member badge, never to an `ADMIN` |
| UserManage.ModalUrlAsWrittenDiffers | src/pages/admin/UserManage.jsx:411 | the ID-back button opens the private address while the ID-back thumbnail opens the local copy |
| UserManage.ModalUrl | src/pages/admin/UserManage.jsx:370 | the full-size view opens the thumbnail's own URL, none only for a document without a URL |
| UserManage.ModalUrlOnlyIdBackButtonDiffers | src/pages/admin/UserManage.jsx:370-440 | for every user, document and opener, the page as written and the corrected one give the same URL except on the ID back's button, where the page as written passes the stored URL unrewritten |
| UserManage.ModalUrlAgrees | src/pages/admin/UserManage.jsx:399 | with the rewrite on both paths, the ID back opens its local copy from either opener |
| UserManage.UserManagePage.constructor | src/pages/admin/UserManage.jsx:5-12 | the page starts loading, with nothing selected and no pending delete |
| UserManage.UserManagePage.FetchUsers | src/pages/admin/UserManage.jsx:26-37 | the loaded list replaces the users, or the error is set and the list kept; loading ends |
| UserManage.UserManagePage.HandleViewUser | src/pages/admin/UserManage.jsx:40-52 | the loaded user is shown, or the error is set and the view closed; `modalLoading` ends false |
| UserManage.UserManagePage.HandleCloseModal | src/pages/admin/UserManage.jsx:55-58 | closes the view and clears the selection, nothing else |
| UserManage.UserManagePage.HandleDeleteUser | src/pages/admin/UserManage.jsx:61-72 | a success drops the user, clears the confirmation and closes the view exactly when it showed that user, leaving any earlier error; a failure only sets the error |
| GemManage.StatusBadgeColor | src/pages/admin/GemManage.jsx:45-52 | the table's colour for `PENDING`, `APPROVED` and `REJECTED`, grey exactly for every other status |
| GemManage.GemManagePage.constructor | src/pages/admin/GemManage.jsx:5-11 | the page starts loading with an empty list and nothing selected |
| GemManage.GemManagePage.FetchPendingGems | src/pages/admin/GemManage.jsx:22-33 | the loaded list replaces the gems, or the error is `err.message` or the fallback and the list is kept; loading ends |
| GemManage.GemManagePage.HandleViewGem | src/pages/admin/GemManage.jsx:35-38 | selects the gem and opens the view, nothing else |
| GemManage.GemManagePage.HandleCloseModal | src/pages/admin/GemManage.jsx:40-43 | closes the view and clears the selection, nothing else |

## Left out

- The 15-second timeout and the `download` helper (Blob, object URL, link click) of `axiosConfig.js` are I/O. The progress callback is kept only as whether one was given.
- Requests carry their path. Prefixing it with the base URL `http://localhost:8080/api` is left to axios and not modelled.
- The request interceptor's error handler re-rejects its error unchanged. Building the request cannot fail in the model, so that path is not modelled.
- `console.error` logging in the response interceptor is not modelled. Those branches are modelled as leaving store and location unchanged.
- The admin service wrappers (`tickets.js`, `listedGems.js`, `userManage.js`, `gemManage.js`, `userService.js`) are I/O plumbing. Their calls are parameters of the page methods, and what they throw is `Js.Thrown`.
- Locale rendering by `toLocaleDateString`/`toLocaleString` is a library call. Only the `N/A` branch is modelled (`AdminCommon.FormatDate`).
- The half-second minimum wait of the ticket and gem list loads does not change the loaded list.
- The three-second timer that clears the ticket success message is not modelled.
- The `FileReader` image previews are asynchronous. `HandleFileChange` leaves `previews` alone, and only `RemoveFile` clears one.
- Inline state setters wired straight into markup are plain field assignments with no logic, and are not modelled:
  - the filter selects;
  - the reply form toggle, reply text and reply status inputs;
  - `setDeleteConfirm`;
  - `setImageModal`;
  - password visibility.
- Of the full-size image view, only the URL it receives is modelled (`UserManage.ModalUrl`).
- The gem galleries call `fixImageUrl` on `http://localhost:8080` + a path. That is the same function (`AdminCommon.FixImageUrl`) and is not modelled again per call site.
- JavaScript object lookups also find inherited names such as `constructor`, which yield a truthy function. The badge tables are maps, so such names get the grey default.
- Races between concurrent requests are not modelled. An example is a 401 invalidation landing during a sign-in.
- React rendering, routing tables, layouts, sidebars, navbars, the loader and both dashboards are presentational.
- AuthContext.AuthProvider.IsAdmin: states only that an admin context has a role, which is weaker than equality with `ADMIN`. The equality is its body, and `AuthContext.ContextRolesAgree` ties it to the store's `isAdmin`.
- AuthContext.AuthProvider.IsUser: states only that a user context is not an admin context, which is weaker than equality with `USER`. The equality is its body, and `AuthContext.ContextRolesAgree` ties it to the store's `isUser`.
- Gateway.HttpError and AuthService.FailureMessage: an error response whose body is JSON `null` is not modelled; the model's error response always has a body. On such a reply with a status other than 401, the response interceptor's `data.message` throws a TypeError, the call rejects with that TypeError, and `login`/`register` show "An error occurred. Please try again." rather than the fallback the model gives. On a 401 the session is cleared first, and then the `error.response.data.message` read in `login`/`register` throws a TypeError whose message comes from the JavaScript engine.
- AuthService.StoredText: a reply whose `role` is JSON `null` is not distinguished from one without a `role`. `setItem` would store the text `null` for the first and `undefined` for the second; the model stores `undefined` for both. Both texts are truthy and neither is `ADMIN` or `USER`, so `AuthContext.Derive` and the routing come out the same.

## Findings

| source | as written | input that shows it | evidently intended | confidence | as-written member | corrected member |
|---|---|---|---|---|---|---|
| src/pages/admin/UserManage.jsx:411 | the ID-back "View Full Size" button passes `selectedUser.idBackImageUrl` to the image view without `fixImageUrl`, unlike the ID-back thumbnail (line 399) and the other two documents' buttons (lines 382, 440) | `idBackImageUrl = "http://192.168.1.20:8080/a.png"`: the thumbnail opens `http://localhost:8080/a.png`, the button opens the private address | `fixImageUrl(selectedUser.idBackImageUrl)`, as on every other opener | not executed; read from the source | UserManage.ModalUrlAsWrittenDiffers | UserManage.ModalUrlAgrees |
