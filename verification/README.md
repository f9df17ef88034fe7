# InventoX session lifetime and role-gated access, in Dafny

This project models the access-control core of the InventoX inventory console.
That core has five parts:

- **Credential issuer.** `login` checks a username and password against the
  account directory. It reads the configured session timeout and mints a token
  `{subject, role, expiresAt}`. `changePassword` replaces an account's password
  digest.
- **Settings store.** A key/value collection that holds `sessionTimeout`. A read
  creates the record with the default of 15 minutes when it is missing. An
  update validates the value and then upserts it.
- **Account directory.** A map from id to account, with create, list, update,
  enable, disable and delete. The schema supplies the role enumeration, the
  defaults and the unique usernames.
- **Route allow-lists.** The account and settings routers, each behind the token
  guard and a SUPER_ADMIN-only allow-list. On the browser side: `ProtectedRoute`,
  the `App` route table, the sidebar menu table, and the role branches of the
  settings page.
- **Client session.** The restore/login/logout state machine over the `auth`
  local-storage record. The HTTP client's interceptors attach the bearer token
  and tear the session down on a 401. The login page's submit sequence and the
  account and settings pages' checks complete the picture.

Everything is a pure function over immutable values. Stores are maps, local
storage is a record, and the clock is an explicit `nowMs: nat` parameter
(milliseconds since the epoch, as `Date.now()` gives).

Password hashing is modelled by the key material bcrypt consumes (`Crypto.Hash`).
bcrypt's key schedule reads the password's UTF-8 bytes followed by a zero byte,
cyclically, and stops after 72 bytes. Two passwords therefore share a digest
exactly when those 72-byte key streams agree (`Crypto.MatchesIffSameKey`).
Salt and one-wayness are left out.
Token signing is represented by the claims the token carries. The issue time is
rounded down to the whole second, so `expiresAt = nowMs / 1000 + minutes * 60`.

One module per source component:

| module | file | source |
|---|---|---|
| `Roles`, `UserModel` | roles.dfy, user_model.dfy | backend/src/models/User.js |
| `Crypto`, `Tokens`, `Http` | crypto.dfy, tokens.dfy, http.dfy | primitives and response shapes |
| `SettingsController` | settings_controller.dfy | backend/src/controllers/settingsController.js, backend/src/models/Setting.js |
| `UserController` | user_controller.dfy | backend/src/controllers/userController.js |
| `AuthController` | auth_controller.dfy | backend/src/controllers/authController.js |
| `Routes` | routes.dfy | backend/src/routes/userRoutes.js, backend/src/routes/settingsRoutes.js |
| `AuthContext` | auth_context.dfy | frontend/src/auth/AuthContext.jsx |
| `ApiClient` | api_client.dfy | frontend/src/api/axios.js |
| `ProtectedRoute`, `App`, `Sidebar` | protected_route.dfy, app.dfy, sidebar.dfy | the files of the same names |
| `LoginPage`, `UsersPage`, `UserForm`, `SettingsPage` | login_page.dfy, users_page.dfy, user_form.dfy, settings_page.dfy | frontend/src/pages/*.jsx |
| `Seqs`, `Text`, `Uploads`, `Wrappers` | seqs.dfy, text.dfy, uploads.dfy, wrappers.dfy | `Array.prototype.filter`, string order and `trim`, the shared photo check, optional values |
| `SessionLifetime` | session_lifetime.dfy | how server and client lifetimes relate |

## The two lifetimes disagree

The server signs each token for the configured timeout, which defaults to 15
minutes. The login page first stores a record that expires in 15 minutes. It
then calls the context's `login`, which overwrites that record with an 8-hour
expiry of its own. Neither value is derived from the token.
`SessionLifetime.WindowsAlwaysDiverge` proves that for every valid timeout
under which a token is issued at all there is an instant at which the client's restore and the server's token check
disagree:

- With a timeout of up to 8 hours, the client still shows a session after the
  token is refused (`ClientOutlivesToken`).
- With a longer timeout, the client drops a session the server would still
  accept (`TokenOutlivesClient`).

The model states this divergence as the code has it; it does not fix it.

## Behaviour of the code worth knowing

- **Create echoes the digest.** A password digest is never meant to leave the
  server. Yet the create handler answers with the whole new record, digest
  included (`UserController.CreateUser`, body `Record`).
- **No update route.** The update handler `updateUser` exists, but the account
  router neither imports nor routes it, so `PATCH /users/:id` matches no route.
  The edit form sends exactly that request (`Routes.NoAccountUpdateRoute`,
  `UserForm.PlanRequestRouting`).
- **Client window is not the token's.** The client's session window does not
  follow the token's expiry. The code uses a fixed 8 hours (see above).
- **A rejected login clears the stored session.** The login request goes
  through the shared HTTP client. Its 401 answer therefore hits the response
  interceptor, which removes the `auth` record and sends the browser to
  `/login` (`LoginPage.Submit`, `LoginPage.RejectedLoginLeavesNoSession`).
- **ADMIN department list is always empty.** The settings page loads it from
  the account listing, which admits SUPER_ADMIN only
  (`SettingsPage.AdminDepartmentLoadRefused`).
- **Profile update always fails.** The personal settings send the profile as
  PATCH on the user's id. There is no such route, and with no `user` in the
  context the page throws before sending. The page reports failure either way
  (`SettingsPage.ProfileUpdateAlwaysFails`).
- **A huge timeout locks everyone out.** The update handler accepts any
  number of at least 1. Login hands the signing library the text
  `<minutes>m`, and from 10^21 on that number is printed in exponent notation
  (`1e+21m`), which the library's duration parser rejects. Signing then
  throws, so every correct login fails from then on (`AuthController.Login`,
  `AuthController.LoginAfterTimeoutUpdate`).
- **No `user` from the context.** The settings page reads `user` from the
  session context, which never provides one. The model keeps it as a parameter
  (`userPresent`).

## Model

| member | source | states |
|---|---|---|
| Roles.Parse | backend/src/models/User.js:8-12 | a role string passes the enumeration check exactly when it is one of the four names, and then names that role |
| Roles.ParseName | backend/src/models/User.js:10 | every role's wire name parses back to that role |
| UserModel.Materialize | backend/src/models/User.js:3-25 | an absent role becomes VIEWER and an absent flag becomes active; a role outside the enumeration fails validation; username, digest and profile are kept |
| Crypto.MatchesIffSameKey | backend/src/controllers/authController.js:14 | a password matches a digest exactly when its 72-byte key stream equals the one the digest was made from |
| Crypto.TruncationCollides | backend/src/controllers/authController.js:14 | anything appended to a password whose encoding already fills 72 bytes still matches the original's digest |
| Crypto.SeventyTwoBytesCollide | backend/src/controllers/authController.js:14 | 72 'a's and the same followed by 'b' are different passwords with the same digest |
| Tokens.Issue | backend/src/controllers/authController.js:21-25 | the token carries the given subject and role, and its expiry is within a second of `now + minutes` |
| Tokens.IssueLifetime | backend/src/controllers/authController.js:21-25 | a token is accepted at an instant exactly when that whole second precedes issue second + lifetime |
| SettingsController.GetSessionTimeout | backend/src/controllers/settingsController.js:5-21 | always answers the stored timeout, creating it as 15 when absent; with the record present nothing is written; other keys untouched; the at-least-one-minute invariant is kept |
| SettingsController.UpdateSessionTimeout | backend/src/controllers/settingsController.js:25-43 | missing, non-numeric, zero and negative values get 400 with the store unchanged; any value of at least 1 succeeds, and the one timeout entry becomes the value and is echoed; other keys untouched; invariant kept |
| SettingsController.GetTwiceAgrees | backend/src/controllers/settingsController.js:7-17 | a second read answers the same and writes nothing |
| SettingsController.UpdateThenGet | backend/src/controllers/settingsController.js:27-39 | after updating to t at least 1, a read answers t |
| UserController.CreateUser | backend/src/controllers/userController.js:5-40 | a missing field gives 400 and a taken username gives 400 "User exists", store unchanged; a bad role throws; it succeeds exactly when the fields are present, the username is free and the role is valid, and then adds exactly one active record with the hashed password and the given fields; unique usernames kept |
| UserController.GetUsers | backend/src/controllers/userController.js:43-49 | answers a list holding every account whose role is not SUPER_ADMIN exactly once and no other, each without its digest, in the collection's natural order |
| UserController.UpdateUser | backend/src/controllers/userController.js:52-71 | unknown id gives 404; a username held by another account throws; any other update of an existing id succeeds: an empty password keeps the digest and a non-empty one is hashed, other given fields are written and absent ones kept; answer omits the digest |
| UserController.DisableUser | backend/src/controllers/userController.js:74-77 | only the activation flag of that id changes, to false; success is answered even for an unknown id |
| UserController.EnableUser | backend/src/controllers/userController.js:80-83 | only the activation flag of that id changes, to true; success is answered even for an unknown id |
| UserController.DeleteUser | backend/src/controllers/userController.js:86-89 | removes only that id and leaves every other record as it was |
| UserController.DeleteUndoesCreate | backend/src/controllers/userController.js:27-39 | deleting a freshly created account restores the directory |
| UserController.EnableUndoesDisable | backend/src/controllers/userController.js:74-83 | enable after disable (and the reverse) restores the account; both are no-ops for unknown ids |
| UserController.CreatedAccountListed | backend/src/controllers/userController.js:43-49 | a created account is listed, at most once, exactly when its role is not SUPER_ADMIN |
| AuthController.FindActive | backend/src/controllers/authController.js:11 | finds an account exactly when an active one holds the username |
| AuthController.Login | backend/src/controllers/authController.js:8-28 | answers either the single invalid-credentials 401 or a token; a token exactly when an active account with that username matches the password; a token is issued for an authenticated login unless the timeout is 10^21 or more in magnitude, where signing throws; claims are that account's id and role; expiry uses the stored timeout or 15 |
| AuthController.LoginFailuresIndistinguishable | backend/src/controllers/authController.js:11-15 | unknown username, disabled account and wrong password all get the identical answer |
| AuthController.LoginUsesTimeoutGetAnswers | backend/src/controllers/authController.js:18-19 | the lifetime login issues for is the value a settings read would answer; when login throws, that value is one the signing library cannot read |
| AuthController.LoginAfterTimeoutUpdate | backend/src/controllers/authController.js:18-24 | after the timeout is set to t, tokens are issued for t minutes when t is below 10^21, and login throws otherwise |
| AuthController.ChangePassword | backend/src/controllers/authController.js:32-53 | empty fields give 400 before lookup; a missing account gives 404 and a wrong current password 400, store unchanged; it succeeds exactly when both fields are filled, the account exists and the current password matches, and then changes only that account's digest, to the new one |
| AuthController.LoginAfterPasswordChange | backend/src/controllers/authController.js:49-52 | after a change, the new password logs in, and the old one does exactly when it shares the new one's 72-byte bcrypt key stream |
| Routes.MatchUserRoute | backend/src/routes/userRoutes.js:16-20 | the account route table is exactly POST /, GET /, PATCH /:id/disable, PATCH /:id/enable, DELETE /:id |
| Routes.DispatchUsers | backend/src/routes/userRoutes.js:14-20 | a handler runs only for a live SUPER_ADMIN token; a live token of another role gets 403 and no token or an expired one 401, whatever the path |
| Routes.NoAccountUpdateRoute | backend/src/routes/userRoutes.js:2-8 | PATCH on a bare id matches no route and reaches no handler |
| Routes.SuperAdminReachesUserRoutes | backend/src/routes/userRoutes.js:14-20 | a live SUPER_ADMIN token reaches every route in the table |
| Routes.MatchSettingsRoute | backend/src/routes/settingsRoutes.js:13-14 | GET and POST /session-timeout are the only settings routes |
| Routes.DispatchSettings | backend/src/routes/settingsRoutes.js:11-14 | a settings handler runs only for a live SUPER_ADMIN token; other roles get 403, no or expired token 401 |
| Routes.ExpiredSuperAdminRefused | backend/src/routes/settingsRoutes.js:11 | an expired SUPER_ADMIN token is refused as unauthenticated by both routers |
| AuthContext.Restore | frontend/src/auth/AuthContext.jsx:11-23 | no record: anonymous, storage untouched; now past the expiry: record removed, anonymous; otherwise (equality included) the saved token and role |
| AuthContext.Login | frontend/src/auth/AuthContext.jsx:26-36 | stores the token and role with an expiry of now + 8 hours and adopts them, other keys untouched |
| AuthContext.Logout | frontend/src/auth/AuthContext.jsx:39-43 | removes the record and nulls the state |
| AuthContext.LogoutIdempotent | frontend/src/auth/AuthContext.jsx:39-43 | logging out twice equals logging out once |
| AuthContext.LoginRestoreRoundTrip | frontend/src/auth/AuthContext.jsx:12-35 | a login at T restores the same session at any instant up to T + 8 hours, and none after |
| AuthContext.LogoutThenRestore | frontend/src/auth/AuthContext.jsx:12-43 | after logout a reload is anonymous |
| ApiClient.AttachBearer | frontend/src/api/axios.js:9-21 | with a stored record the request carries its token as bearer; without one the config is returned unchanged |
| ApiClient.OnResponse | frontend/src/api/axios.js:25-35 | every outcome is passed on as it was; a 401 removes the record and redirects to /login; anything else leaves storage alone |
| ApiClient.UnauthorizedEndsSession | frontend/src/api/axios.js:28-31 | after a 401, the reload the redirect causes restores an anonymous session |
| ApiClient.UnauthorizedStopsBearer | frontend/src/api/axios.js:10-31 | after a 401, later requests get no bearer attached |
| ProtectedRoute.Decide | frontend/src/auth/ProtectedRoute.jsx:4-17 | no token redirects to login whatever the roles; a token with a role list not holding the role is denied; otherwise the children render |
| App.View | frontend/src/App.jsx:15-45 | no token shows the login page for every path; /users shows only for SUPER_ADMIN and is denied otherwise; the dashboard gets the role; unknown paths match nothing; the route guard's redirect is never reached |
| App.SessionOnlyPathsOpen | frontend/src/App.jsx:24-40 | the dashboard, products, stock, suppliers, reports and settings pages need only a session |
| Sidebar.Menu | frontend/src/components/Sidebar.jsx:26-57 | no role gives an empty menu; every role's menu starts with Dashboard; /users appears exactly for SUPER_ADMIN |
| Sidebar.MenusNest | frontend/src/components/Sidebar.jsx:26-51 | STAFF's menu is a prefix of ADMIN's, which is a prefix of SUPER_ADMIN's; VIEWER's is Dashboard and Reports |
| Sidebar.AtMostOneActive | frontend/src/components/Sidebar.jsx:96-98 | the exact-path highlight marks at most one entry of a menu |
| Sidebar.MenuEntriesOpen | frontend/src/components/Sidebar.jsx:26-57 | every entry a role is offered opens a page for that role in the route table |
| Sidebar.HandleLogout | frontend/src/components/Sidebar.jsx:60-63 | logs out, then navigates to /login |
| LoginPage.SubmitEffects | frontend/src/pages/Login.jsx:13-34 | loading is raised first and lowered last; on success the 15-minute record is written before the context login; a failure writes nothing and passes the response interceptor before the page's own failure handling |
| LoginPage.Submit | frontend/src/pages/Login.jsx:13-34 | ends not loading; a success adopts the answered token and role and leaves an 8-hour record; a 401 failure removes the stored record and sends the browser to /login; any other failure changes neither session, storage nor location |
| LoginPage.RejectedLoginLeavesNoSession | frontend/src/api/axios.js:28-31 | after a login answered 401 the browser is at /login and the reload restores no session |
| LoginPage.SubmitOverwritesPageRecord | frontend/src/pages/Login.jsx:17-28 | while waiting the flag is up; right after the page's write the record expires in 15 minutes; the final record replaces that with 8 hours |
| Text.TrimEmptyIffBlank | frontend/src/pages/UserForm.jsx:57 | a string trims to empty exactly when it is all whitespace |
| UsersPage.FilteredUsers | frontend/src/pages/Users.jsx:20-24 | a row is kept exactly when each filter is ALL or equals its value, as often as it occurs; order is preserved; ALL/ALL keeps every row |
| UsersPage.ShowsListing | frontend/src/pages/Users.jsx:11-24 | over the server's listing, the page shows an account exactly when it is listed and passes both filters, in the listing's order |
| UsersPage.RoleFilterOmitsSuperAdmin | frontend/src/pages/Users.jsx:42-45 | the role filter offers no SUPER_ADMIN option |
| UsersPage.DepartmentOptions | frontend/src/pages/Users.jsx:54-55 | the options are exactly the non-empty departments of the listed users, strictly ascending |
| UsersPage.OptionsDistinct | frontend/src/pages/Users.jsx:54-55 | no department is offered twice |
| UsersPage.RowActions | frontend/src/pages/Users.jsx:110-137 | each row offers exactly one of Enable (when disabled) or Disable (when active), and Delete |
| UsersPage.ActionsHitRoutes | frontend/src/pages/Users.jsx:110-173 | the Enable and Disable buttons, and Delete once confirmed, send requests that match the enable, disable and delete routes for that row's id |
| UserForm.InitialForm | frontend/src/pages/UserForm.jsx:10-24 | create mode starts from the empty form with role STAFF; edit mode from the account's fields with an empty password |
| UserForm.SelectableRolesOmitSuperAdmin | frontend/src/pages/UserForm.jsx:237-239 | the role selector offers no SUPER_ADMIN, and the default role is among its options |
| UserForm.PlanSubmit | frontend/src/pages/UserForm.jsx:57-77 | a whitespace-only username is refused; a whitespace-only password only when there is no initial data; initial data with an id selects PATCH on that id, anything else POST |
| UserForm.PlanRequestRouting | frontend/src/pages/UserForm.jsx:70-74 | a create reaches the create route; an edit reaches no route |
| UserForm.ErrorText | frontend/src/pages/UserForm.jsx:87-91 | the error shown is the answer's msg, else its message, else "Failed to save user" |
| UserForm.Submit | frontend/src/pages/UserForm.jsx:53-95 | a refused submit sends nothing and shows its message; a failed save keeps the form and shows the error text; a saved create resets the form; a saved edit keeps it |
| Uploads.HandlePhoto | frontend/src/pages/UserForm.jsx:39-51 | no file does nothing; a photo is read exactly when its type is JPEG or PNG; any other file is refused with the page's message |
| SettingsPage.InitialLoads | frontend/src/pages/Settings.jsx:26-45 | nothing loads without a role; SUPER_ADMIN loads only the timeout and ADMIN only the department users |
| SettingsPage.AcceptTimeout | frontend/src/pages/Settings.jsx:53-55 | the timeout shown changes exactly when the answer's timeout is a number |
| SettingsPage.AfterTimeoutUpdate | frontend/src/pages/Settings.jsx:63-78 | a fulfilled update takes a numeric answer and reports success; a failed one keeps the value and reports failure |
| SettingsPage.UpdateRoundTrip | frontend/src/pages/Settings.jsx:63-78 | with the server: a valid value is stored and shown; an invalid one keeps what was shown and the store as it was |
| SettingsPage.DepartmentUsers | frontend/src/pages/Settings.jsx:82-89 | a failed or null load gives the empty list |
| SettingsPage.DepartmentAnswer | frontend/src/pages/Settings.jsx:82-89 | a refused or unrouted request settles as a failed load; one the listing handler serves loads the listing's answer |
| SettingsPage.AdminDepartmentLoadRefused | frontend/src/pages/Settings.jsx:84 | an ADMIN's department load is refused with 403, that refusal settles as a failed load, and so the staff list is empty |
| SettingsPage.StaffListed | frontend/src/pages/Settings.jsx:190-191 | the ADMIN panel lists exactly the STAFF accounts, each as often as listed, in order |
| SettingsPage.Panels | frontend/src/pages/Settings.jsx:135-223 | the timeout panel only for SUPER_ADMIN; the staff panel only for ADMIN; personal settings for ADMIN and STAFF; nothing for VIEWER or no role |
| SettingsPage.LoadsMatchPanels | frontend/src/pages/Settings.jsx:38-44 | a role loads the timeout exactly when it sees its panel, and the department list exactly when it sees the staff panel |
| SettingsPage.TimeoutRequestsRouted | frontend/src/pages/Settings.jsx:51-67 | the page's timeout read and write match the two settings routes |
| SettingsPage.ProfileRequest | frontend/src/pages/Settings.jsx:109-111 | with no user in the context nothing is sent (reading its id throws); otherwise PATCH on the user's id |
| SettingsPage.ProfileMessage | frontend/src/pages/Settings.jsx:109-116 | success is reported exactly for a fulfilled request; a throw or a rejection reports failure |
| SettingsPage.ProfileUpdateAlwaysFails | frontend/src/pages/Settings.jsx:109-116 | whatever the user and token, a profile update reports failure |
| SettingsPage.AfterPasswordChange | frontend/src/pages/Settings.jsx:120-128 | a fulfilled change clears both fields and reports success; a failed one keeps them and reports failure |
| SettingsPage.PasswordChangeRoundTrip | frontend/src/pages/Settings.jsx:120-128 | with the server: success is reported exactly when both fields are filled, the caller exists and the current password matches, and then the stored digest is the new password's; otherwise form and directory are unchanged |
| SettingsPage.PhotoCheckMatchesForm | frontend/src/pages/Settings.jsx:93-105 | the settings page reads exactly the photos the account form reads, and refuses the others with its own, different message |
| SessionLifetime.ClientOutlivesToken | frontend/src/auth/AuthContext.jsx:27 | with a timeout of at most 8 hours, the client still shows a session at the instant the token is refused |
| SessionLifetime.TokenOutlivesClient | backend/src/controllers/authController.js:18-24 | with a timeout over 8 hours, the client has dropped the session while the token is still accepted |
| SessionLifetime.WindowsAlwaysDiverge | frontend/src/pages/Login.jsx:17-28 | a token is issued exactly when the timeout is below 10^21, and then the client and server disagree about the session at some instant |
| SessionLifetime.EndToEnd | backend/src/controllers/authController.js:8-28 | the super-admin scenario: a default 15-minute token reads 15, an update to 60 is echoed, and the next login's token lives 60 minutes |

## Left out

- Token verification. The guard (`Routes.Guard`) states the guard pair's
  contract: no token or an expired one is refused with 401, and a role off the list with
  403. A token is taken as live while the current whole second precedes its
  expiry. The middleware that implements the guard is not part of this model,
  and signature forgery is not modelled.
- Cryptography. bcrypt's salt, cost and Blowfish rounds and the JWT encoding
  are external. A digest is exactly the 72-byte key stream, so it is
  collision-free beyond that cut-off, and a token is its claims.
- Storage and transport faults. Database errors, the 500 answers of the
  settings handlers, and invalid ObjectId strings are not modelled.
  Exceptions the handlers do not catch are a single `Thrown` answer.
- Server wiring. Mounting, CORS and `listen` in backend/src/server.js are not
  modelled. That file mounts only the auth and account routers, so the
  settings routes are not reachable in the deployed server.
- Auth router. The router that mounts login and change-password is not part of
  this model. `AuthController.ChangePassword` takes the caller's id as a
  parameter, as the guard would supply it.
- Route matching details. Express and react-router match case-insensitively
  and tolerate a trailing slash. The model matches exact paths split into
  segments.
- Absent login fields. A login body with no username or no password depends on
  how the query layer treats `undefined`, so both are modelled as strings.
- SettingsController.UpdateSessionTimeout: does not model non-integer timeouts
  such as 1.5, which the source's numeric coercion accepts, because timeouts
  are integers here. Nor does it model Infinity, which an overflowing number
  literal such as `1e400` parses to and which passes the at-least-1 check. A
  stored Infinity makes every later login throw, just as a stored value of
  10^21 or more does in `AuthController.Login`.
- AuthController.Login: computes the expiry exactly. The signing library
  computes it in floating point, which rounds it once the lifetime exceeds
  about 1.5·10^11 minutes. Such a token stays live for millennia either way.
- UserController.GetUsers: takes the collection's natural order as a
  parameter (`order`, every stored id once). Which order the store chooses is
  not modelled.
- UserController.UpdateUser: does not model a role string outside the
  enumeration, which the update path does not validate, because roles are the
  closed enumeration here.
- Client storage contents. The `auth` record is assumed to be well-formed JSON
  with a token. The request interceptor's token-truthiness check is therefore
  always met.
- Clocks. The two `Date.now()` calls of one login submit are taken as one
  instant.
- String order. JavaScript sorts strings by UTF-16 code units. `Text.Less`
  compares characters by code point, which orders characters above U+FFFF
  differently.
- Browser effects. Rendering, `FileReader` encoding, the show-password and
  success-message timers, `console` output and full-page navigation are not
  modelled. Navigation appears only as an emitted path.
- Presentation components. Topbar.jsx and Layout.jsx (theme, language,
  outside-click handling) are not modelled. Neither are the one-shot
  administrative scripts (createSuperAdmin.js, listUsers.js, migrateUsers.js).
- Concurrency. Concurrent timeout upserts and overlapping logout and
  interceptor teardown are not modelled; every operation is sequential.
