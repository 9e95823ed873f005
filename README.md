# Authentication core of a MERN scaffold, in Dafny

This project models the authentication logic of a small MongoDB / Express /
React / Node application.

- **Backend.** The `/auth` router has four handlers:
  - `register` validates the body, rejects duplicates, hashes the password and inserts a user;
  - `login` looks the user up by email or username, compares the password and issues a token;
  - `verify` looks up the user a token names;
  - `logout` only acknowledges.
- **Bearer gate.** `authenticateToken` takes the second space-separated field of the
  `Authorization` header as the credential, verifies it, and then either
  answers 401 or records the claims and calls `next`.
- **Admin seed.** At start-up `seedAdminUser` inserts a super-admin record,
  guarded by the admin password and by the admin username.
- **Client forms.** The register and login pages validate their fields into
  an error map, guard submission, send the request, and act on the answer.
- **Client session.** The session provider holds the user, the
  authenticated flag, the loading flag and the stored token. Its transitions
  are the start-up check, login, logout and user update.
- **Client routing.** This covers the `ProtectedRoute` guard, the
  `DefaultRoute` redirect and the route table of `App`. The model also
  follows the redirects to the screen a visitor ends up seeing.

## Abstractions

- **Users and ids.** The user collection is a sequence of records, and a
  record's `_id` is its position (`Users.UserStore`).
- **Lookups.** `findOne` / `findById` is an input, `Lookup`: `Found`,
  `NotFound` or `Failed`. It is constrained by `Responds`, under which a
  found record is a stored one that matches, and `NotFound` means no stored
  record matches. When several records match, any of them may be returned.
- **bcrypt** is a pair of uninterpreted functions, `Hasher`. Two properties
  are assumed only where a lemma needs them:
  - `Sound`: a password matches its own hash;
  - `HidesPlaintext`: a hash never equals its input.
- **Tokens.** A token is `Token(userId, Days(n))`. The lifetime is the
  `exp` claim of section 4.1.4 of RFC 7519. `jwt.sign` and `jwt.verify`
  appear as function parameters (`sign`, `Verifier`).
- **Exceptions** inside a handler are a `Fault` input that names the
  awaited step that throws.
- **Client async handlers** are split at their `await`:
  - `SubmitStart` runs up to the request;
  - `SubmitFinish` runs from the answer (or exception) onwards.
- **The browser's token storage** is the `storedToken` field of the session.
- **JavaScript semantics** are written out explicitly:
  - truthiness of an optional string (`Truthy`) and `a || b` (`OrDefault`);
  - `String.prototype.trim` over the full ECMAScript white-space and
    line-terminator set;
  - `split(' ')`.
  - `s.length` as the number of UTF-16 code units (`Utf16Length`): a
    character outside the Basic Multilingual Plane counts twice.
  - The email and phone regular expressions are hand-written string
    predicates, each proved equal to the language of its expression. The
    password rule, a chain of four separate `test` calls, is written
    directly as the predicate `PasswordOk`.

Where the code and its documentation disagree, the model follows the code:
- `/register` issues a token that lives 7 days.
- `/verify` answers 200 with `valid: true` and `user: null` when the token's
  user no longer exists. Only a lookup that throws gives 401.
- The admin seed checks only the username before inserting.

## Model

| member | source | states |
|---|---|---|
| Common.OrDefault | backend/src/config/db.js:27-30 | `a \|\| b` on an optional string yields the value or the default; a present non-empty value always wins; the result is empty only when the value is absent or empty and the default is empty too |
| Common.Utf16Length | frontend/src/pages/Register.jsx:55 | `length` counts between one and two code units per character |
| Common.BmpLength | frontend/src/pages/Register.jsx:55 | for text inside the Basic Multilingual Plane, `length` is the number of characters |
| Common.Trim | frontend/src/pages/Login.jsx:50 | the trimmed string is no longer than the input and neither starts nor ends with white space |
| Common.TrimStrips | frontend/src/pages/Register.jsx:53-67 | `trim` removes only white space: the result is a contiguous slice of the input with nothing but white space before and after it |
| Common.TrimEmptyIffBlank | frontend/src/pages/Login.jsx:50 | `!s.trim()` holds exactly when every character of `s` is white space (the empty string included) |
| Users.ProfileHidesPassword | backend/src/routes/authRoutes.js:64-71 | the user object sent to clients reveals nothing about the password: two records give the same object exactly when they differ at most in the password |
| Users.CountUsername | backend/src/config/db.js:38-43 | the number of records with a username is at most the collection size, and zero exactly when no record has it |
| Users.CountUsernameAppend | backend/src/config/db.js:58 | appending one record raises a username's count by one exactly when the record carries that username |
| Users.AppendKeepsUnique | backend/src/routes/authRoutes.js:22-52 | inserting a record whose email and username match no stored record keeps emails and usernames unique |
| Users.UserStore.Save | backend/src/routes/authRoutes.js:52 | `save()` appends exactly the new document and keeps ids equal to positions |
| AuthMiddleware.Split | backend/src/middlewares/auth.middleware.js:5 | `split(' ')` always yields at least one field, and no field contains a space |
| AuthMiddleware.JoinSplit | backend/src/middlewares/auth.middleware.js:5 | splitting on single spaces loses nothing: joining the fields with single spaces gives the header back |
| AuthMiddleware.SplitWordPrefix | backend/src/middlewares/auth.middleware.js:5 | a space-free word in front of a string joins the first field of that string's split |
| AuthMiddleware.BearerToken | backend/src/middlewares/auth.middleware.js:4-7 | an extracted token is non-empty, has no space, and is exactly the second space-separated field of a present header |
| AuthMiddleware.HeaderCarriesToken | backend/src/middlewares/auth.middleware.js:5 | any first word, a space, a space-free token, then the end or a space: that token is extracted, whatever the first word |
| AuthMiddleware.TokenLocation | backend/src/middlewares/auth.middleware.js:5 | conversely, an extracted token sits right after the first space and runs to the next space or to the end |
| AuthMiddleware.NoTokenCases | backend/src/middlewares/auth.middleware.js:4-9 | a missing header, a header with no space, and a header with two spaces after the first word all carry no token |
| AuthMiddleware.SchemeIgnored | backend/src/middlewares/auth.middleware.js:5 | "Bearer abc" and "Token abc" both yield "abc"; "Bearer" and "Bearer  x" yield none |
| AuthMiddleware.AttachThenExtract | frontend/src/services/api.js:16-19 | the header the client attaches (`Bearer <token>`) is read back as that same token exactly when the token is non-empty and space-free |
| AuthMiddleware.Gate | backend/src/middlewares/auth.middleware.js:4-17 | every halt is a 401; "No token provided" exactly when no token is extracted; "Invalid token" exactly when verification fails; otherwise it proceeds with the verified claims |
| AuthMiddleware.SignedTokenPasses | backend/src/middlewares/auth.middleware.js:11-14 | a signed token that verifies, sent as the client sends it, passes the gate with its own claims |
| AuthMiddleware.Request.constructor | backend/src/middlewares/auth.middleware.js:3-4 | a request starts with no `req.user`, no response written and `next` not called |
| AuthMiddleware.Authenticate | backend/src/middlewares/auth.middleware.js:3-17 | on a halt the 401 response is written, `req.user` is untouched and `next` is not called; on success `req.user` is the decoded claims, no response is written and `next` is called exactly once |
| AuthRoutes.SameBodyFoundAgain | backend/src/routes/authRoutes.js:22-50 | once the new document is stored, the duplicate query of the same body always finds a record sharing its email or username, so registering the same body again is refused |
| AuthRoutes.Register | backend/src/routes/authRoutes.js:10-78 | a missing or falsy field gives 400 "All fields are required"; a found record with the same email gives "User with this email already exists", checked before the username; otherwise a found record has the username and gives "Username is already taken"; a throwing step gives 500; in every one of these the store is unchanged except after a successful save; the one insert appends exactly the new user with the cost-10 hash; the success answer is 201 with a 7-day token for the new id and the password-free profile; uniqueness of emails and usernames is kept |
| AuthRoutes.StoredPasswordIsHashed | backend/src/routes/authRoutes.js:40-50 | the stored password is the hash and never the plaintext, as long as the hash never returns its input |
| AuthRoutes.Login | backend/src/routes/authRoutes.js:81-138 | the answer is 200 exactly when both credentials are present, the lookup found a record and the password matches its hash; the record then is a stored one whose email or username equals the input, and the body carries the token for its id with the remember-me lifetime, its profile and the echoed flag; missing credentials give 400 "Username/Email and password are required"; a throwing lookup gives 500; a found record gives 500 when `bcrypt.compare` throws, and when `jwt.sign` throws after the password matched (a mismatch is answered first); every other answer is one of the three error answers; the store is only read |
| AuthRoutes.LoginFailuresIndistinguishable | backend/src/routes/authRoutes.js:100-108 | an unknown identifier and a wrong password get the identical answer, 400 "Invalid credentials" |
| AuthRoutes.RememberMeLivesLonger | backend/src/routes/authRoutes.js:111 | remember-me gives a strictly longer lifetime than any other value of the flag |
| AuthRoutes.IdentifiedLookup | backend/src/routes/authRoutes.js:93-98 | when the identifier names exactly one record by email or username, a lookup that does not throw finds that record |
| AuthRoutes.LoginByEmailOrUsernameAgree | backend/src/routes/authRoutes.js:93-132 | logging in by username and by email gives the same answer when each names only this user |
| AuthRoutes.LoginAfterRegister | backend/src/routes/authRoutes.js:40-132 | a user who registered can log in with that username and password, provided no other record answers to the name and the lookup does not throw |
| AuthRoutes.IdentifierCanBeAmbiguous | backend/src/routes/authRoutes.js:22-37 | with a user "sam" stored, a complete register body for another user whose email is "sam" passes the duplicate query, which finds nothing; once both records exist, login by "sam" may find either, and the answer differs with the record returned |
| AuthRoutes.VerifyHandler | backend/src/routes/authRoutes.js:140-153 | 401 "Invalid token" exactly when the lookup throws; a found user gives 200 with the stored record's profile and no password; a user that no longer exists gives 200 with user null |
| AuthRoutes.VerifyRoute | backend/src/routes/authRoutes.js:140-153 | behind the gate, the answer is 200 exactly when the gate lets the request through and the lookup does not throw; every other answer is a 401 rejection |
| AuthRoutes.RegisteredTokenVerifies | backend/src/routes/authRoutes.js:55-72 | the token a fresh registration returns, sent back as a bearer header, passes the gate and verifies to the new user's profile |
| AuthRoutes.Logout | backend/src/routes/authRoutes.js:155-157 | logout always answers 200 with a message, reading and writing nothing |
| AdminSeed.SeedInsert | backend/src/config/db.js:25-63 | a record is inserted exactly when the admin password is set, the username lookup found nothing and no step throws; no stored record then has the admin username |
| AdminSeed.SeedAdmin | backend/src/config/db.js:25-63 | the collection afterwards is the old one plus the seed's record, if any; nothing is propagated to the caller |
| AdminSeed.NoPasswordNoWrite | backend/src/config/db.js:32-35 | without the admin password nothing is written |
| AdminSeed.AdminRecord | backend/src/config/db.js:49-56 | the admin document carries the username the seed looked up and the given hash; its username, email and phone are never empty, and a configured email is used as given |
| AdminSeed.DefaultAdmin | backend/src/config/db.js:27-58 | with the other variables unset the admin is "superadmin", "admin@app.com", "0000000000", named "Super Admin", with the cost-12 hash of the admin password |
| AdminSeed.ExistingAdminNoWrite | backend/src/config/db.js:38-43 | a stored admin username makes the seed write nothing, whatever the lookup returns |
| AdminSeed.SeedTwiceAtMostOneAdmin | backend/src/config/db.js:38-58 | running the seed twice, with any lookups, salts and faults, leaves at most one record with the admin username |
| AdminSeed.EmailNotChecked | backend/src/config/db.js:38 | a record holding the admin email under another username does not stop the insert, which then attempts to store that email a second time |
| AuthContext.Session.constructor | frontend/src/contexts/AuthContext.jsx:16-18 | the session starts with no user, loading, and not authenticated |
| AuthContext.Session.CheckAuth | frontend/src/contexts/AuthContext.jsx:28-52 | the backend is called exactly when a stored token exists and has not expired; without the call the token is removed and nothing else changes; a valid answer sets the user and authenticates; an invalid answer or an exception removes the token; loading is false afterwards on every path |
| AuthContext.Session.Login | frontend/src/contexts/AuthContext.jsx:54-62 | the token is stored only when remember-me is true; the user is set and the session is authenticated either way |
| AuthContext.Session.Logout | frontend/src/contexts/AuthContext.jsx:64-68 | the token is removed, the user cleared and the session no longer authenticated |
| AuthContext.Session.UpdateUser | frontend/src/contexts/AuthContext.jsx:24-26 | only the user changes |
| AuthContext.Mount | frontend/src/contexts/AuthContext.jsx:16-22 | after mounting the check is over, and the session is authenticated exactly when a live stored token was confirmed valid; it then holds the verified user and keeps the token, and otherwise holds no user and no token |
| RegisterPage.EmailShapeIsPattern | frontend/src/pages/Register.jsx:63 | the hand-written email test accepts exactly the strings of `^[^\s@]+@[^\s@]+\.[^\s@]+$` |
| RegisterPage.PhoneShapeIsPattern | frontend/src/pages/Register.jsx:69 | the hand-written phone test accepts exactly the strings of `^\+?[\d\s-()]{10,}$` |
| RegisterPage.RegisterErrors | frontend/src/pages/Register.jsx:50-96 | the error map has no entry for the submit button and no empty message |
| RegisterPage.CollectEntries | frontend/src/pages/Register.jsx:50-94 | running a list of checks records a key exactly when it was checked and failed, under its own message |
| RegisterPage.ErrorsAfterEntries | frontend/src/pages/Register.jsx:50-94 | after any prefix of the rules, the map holds exactly the failing rules among them, each with its message |
| RegisterPage.RuleByRule | frontend/src/pages/Register.jsx:50-94 | the error map is built by the seven rules in the order the page checks them |
| RegisterPage.RegisterErrorsEntries | frontend/src/pages/Register.jsx:50-94 | a key is in the error map exactly when its rule fails, and its entry is that rule's message |
| RegisterPage.UsernameAccepted | frontend/src/pages/Register.jsx:53-57 | the username passes exactly when it is not blank and its untrimmed length in UTF-16 code units is at least 4 |
| RegisterPage.UsernameCountsCodeUnits | frontend/src/pages/Register.jsx:55 | "ab" followed by one emoji passes the length rule, which counts that emoji as two, while "abc" does not |
| RegisterPage.NameAccepted | frontend/src/pages/Register.jsx:59 | the full name passes exactly when it is not blank |
| RegisterPage.EmailAccepted | frontend/src/pages/Register.jsx:61-65 | the email passes exactly when it has the form `x@y.z` with x, y, z non-empty and free of white space and '@' |
| RegisterPage.PhoneAccepted | frontend/src/pages/Register.jsx:67-71 | the phone passes exactly when it is not blank and is an optional '+' followed by at least ten digits, white space, '-', '(' or ')' |
| RegisterPage.RegisterErrorsEmpty | frontend/src/pages/Register.jsx:95-96 | the error map is empty exactly when no rule fails |
| RegisterPage.RegisterAcceptsIff | frontend/src/pages/Register.jsx:50-96 | the form passes exactly when every field satisfies its rule (the username's length counted in UTF-16 code units; the password at least six characters with a letter, a digit and one of `@#$%^&*`, and nothing else), with the terms ticked and the confirmation equal to the password |
| RegisterPage.MismatchAndTermsIndependent | frontend/src/pages/Register.jsx:88-93 | a confirmation mismatch and unticked terms each have their own entry, whatever the other fields hold |
| RegisterPage.UsernameLengthCountsSpaces | frontend/src/pages/Register.jsx:53-57 | the length rule counts untrimmed characters: "  ab" passes |
| RegisterPage.RegisterForm.constructor | frontend/src/pages/Register.jsx:26-40 | the form starts with six empty fields, terms unticked, not loading, no errors and no message |
| RegisterPage.RegisterForm.HandleInputChange | frontend/src/pages/Register.jsx:42-48 | only the named field changes, and only that field's error is blanked when it was set |
| RegisterPage.RegisterForm.SetAcceptTerms | frontend/src/pages/Register.jsx:37 | the terms checkbox takes the new value |
| RegisterPage.RegisterForm.ValidateForm | frontend/src/pages/Register.jsx:50-97 | the stored errors are the rule-by-rule error map, and the result is true exactly when it is empty |
| RegisterPage.RegisterForm.SubmitStart | frontend/src/pages/Register.jsx:99-112 | nothing is sent exactly when validation fails; otherwise loading is raised, errors are cleared and the request carries the five fields as held |
| RegisterPage.RegisterForm.SubmitFinish | frontend/src/pages/Register.jsx:114-132 | an answer with a token signs the session in with remember-me on and leads to the user dashboard; an exception shows the server's message or "Registration failed"; loading always drops |
| RegisterPage.RegisterForm.ResetForm | frontend/src/pages/Register.jsx:135-147 | every field is empty, terms are unticked, and errors and message are cleared |
| LoginPage.LoginErrors | frontend/src/pages/Login.jsx:47-59 | the error map has no entry for the submit button and no empty message, and it is empty exactly when neither rule fails |
| LoginPage.LoginErrorsEntries | frontend/src/pages/Login.jsx:47-57 | the identifier entry is present exactly when it is blank, the password entry exactly when it is empty, each with its message, and nothing else |
| LoginPage.LoginAcceptsIff | frontend/src/pages/Login.jsx:47-60 | the form passes exactly when the identifier is not blank and the password is not empty |
| LoginPage.SpacesPassword | frontend/src/pages/Login.jsx:54-56 | the password is not trimmed, so one made of spaces passes |
| LoginPage.RedirectTarget | frontend/src/pages/Login.jsx:26 | the target is the guarded page's pathname when the navigation carried a non-empty one, "/" otherwise, and never empty |
| LoginPage.LoginForm.constructor | frontend/src/pages/Login.jsx:26-37 | the form starts empty, remember-me off, not loading, with no errors or message, and records the redirect target |
| LoginPage.LoginForm.HandleInputChange | frontend/src/pages/Login.jsx:39-45 | only the named field changes, and only that field's error is blanked when it was set |
| LoginPage.LoginForm.SetRememberMe | frontend/src/pages/Login.jsx:34 | the remember-me box takes the new value |
| LoginPage.LoginForm.ValidateForm | frontend/src/pages/Login.jsx:47-60 | the stored errors are the login error map, and the result is true exactly when it is empty |
| LoginPage.LoginForm.SubmitStart | frontend/src/pages/Login.jsx:62-82 | while loading nothing happens; a failing form records its errors and sends nothing; otherwise loading is raised, message and errors are cleared, and the request carries identifier, password and remember-me as held |
| LoginPage.LoginForm.SubmitFinish | frontend/src/pages/Login.jsx:84-100 | an answer shows the success message, signs the session in when it carries a token, and redirects to the recorded target; an exception shows the server's message or "Invalid credentials. Please try again."; loading always drops |
| LoginPage.LoginForm.ResetForm | frontend/src/pages/Login.jsx:103-111 | the fields are empty, remember-me is off, and errors and message are cleared |
| LoginPage.DoubleSubmit | frontend/src/pages/Login.jsx:66-69 | two submissions in a row send at most one request: the second never sends |
| Routing.Guard | frontend/src/components/ProtectedRoute.jsx:6-31 | the spinner exactly while loading; the login redirect carrying the current location exactly for a guest on a page that needs a session; the play redirect exactly for a signed-in user on a guest page; the children otherwise; the four are exclusive |
| Routing.RequireAuthDefault | frontend/src/components/ProtectedRoute.jsx:6 | `requireAuth` defaults to true, so a guest is sent to login when it is omitted |
| Routing.DefaultRoute | frontend/src/App.jsx:19-36 | the loading text exactly while loading; otherwise login with no user, the admin dashboard for the email "admin@app.com", and the user dashboard for any other user |
| Routing.FirstMatch | frontend/src/App.jsx:43-87 | a route is chosen exactly when some pattern matches, and it is the first pattern that matches |
| Routing.FirstMatchAt | frontend/src/App.jsx:43-87 | the route at the first matching position is the one chosen |
| Routing.ResolveIsFirstMatch | frontend/src/App.jsx:43-87 | every path is claimed by some route, and the element rendered is that of a route whose pattern matches the path with no earlier route matching |
| Routing.Visit | frontend/src/App.jsx:19-86 | one render shows a screen while loading, never a page; it only ever redirects to login, play or a dashboard; only the login redirect carries state, which records the path being left; a page is shown to a signed-in visitor exactly when it is a session page |
| Routing.GuestPages | frontend/src/App.jsx:45-60 | "/register" and "/login" show their pages behind the guard with `requireAuth` false |
| Routing.SessionPages | frontend/src/App.jsx:63-80 | "/admin" and everything under "/admin/" show the admin page, "/user" and everything under "/user/" the user page, behind the guard with `requireAuth` true |
| Routing.DefaultPages | frontend/src/App.jsx:83-86 | every other path, "/" included, resolves to the default redirect |
| Routing.PlayIsUserPage | frontend/src/App.jsx:63-80 | the play page and the two dashboards are session pages |
| Routing.LoginSettles | frontend/src/App.jsx:53-60 | a guest on "/login" sees the login page |
| Routing.GuestDashboardSettles | frontend/src/components/ProtectedRoute.jsx:21-24 | a guest on either dashboard ends on the login page |
| Routing.PlaySettles | frontend/src/components/ProtectedRoute.jsx:26-31 | a signed-in user on the play page sees the user page |
| Routing.SignedInLoginSettles | frontend/src/components/ProtectedRoute.jsx:26-29 | a signed-in user on "/login" ends on the user page |
| Routing.NoRedirectLoop | frontend/src/App.jsx:19-86 | from any path, following the redirects settles within three steps; while loading a loading screen shows; a guest only ever sees the login or register page; a signed-in user only ever sees the admin or user page |
| Routing.GuardedSettles | frontend/src/components/ProtectedRoute.jsx:6-31 | a guarded path settles, to a guest page for a guest and to a session page for a signed-in user |
| Routing.DefaultSettles | frontend/src/App.jsx:19-36 | a default path settles, to the login page for a guest and to a session page for a signed-in user |
| Routing.GuardedPages | frontend/src/App.jsx:45-80 | a guarded route shows a guest page exactly when it does not require a session |
| EndToEnd.ValidRegisterFormIsComplete | frontend/src/pages/Register.jsx:106-112 | a register form that passes the client rules is never answered "All fields are required" |
| EndToEnd.ValidLoginFormHasCredentials | frontend/src/pages/Login.jsx:78-82 | a login form that passes the client rules always carries both credentials |
| EndToEnd.BlankIdentifierStoppedByClient | frontend/src/pages/Login.jsx:50-52 | an identifier of spaces passes the backend's presence check but is stopped by the form |
| EndToEnd.RememberMeRoundTrip | backend/src/routes/authRoutes.js:111-131 | after a successful login the client keeps the token exactly when the box was ticked, and the token lives thirty days exactly then |
| EndToEnd.LoginFailureShowsServerMessage | frontend/src/pages/Login.jsx:92-97 | a failed login shows the backend's own message, one of its three error messages, and never the fallback |
| EndToEnd.DeletedUserStaysSignedIn | backend/src/routes/authRoutes.js:142-148 | a token whose user was deleted still verifies with no user; the session counts as signed in, and "/" ends on the user page |
| EndToEnd.DeletedUserSession | frontend/src/contexts/AuthContext.jsx:39-42 | the start-up check with such a live token leaves the session authenticated with no user |
| EndToEnd.SeededAdminLandsOnDashboard | frontend/src/App.jsx:31-35 | the seeded admin goes to the admin dashboard when the admin email is left at its default, and to the user dashboard when it is set to any other email |
| EndToEnd.LoginReturnsToGuardedPage | frontend/src/components/ProtectedRoute.jsx:21-24 | a guest sent from a session page to login is returned to that same page once signed in |
| EndToEnd.AdminAreaOpenToAnyUser | frontend/src/App.jsx:63-70 | there is no role check: any signed-in user is shown the admin page |

## Left out

- **Cryptography.** bcrypt salting, cost factors and constant-time comparison are uninterpreted (`Hasher`). So is bcrypt's truncation of passwords to 72 bytes.
- **JWT.** Encoding, signing, secrets and clock-based expiry are uninterpreted. backend/src/services/tokenService.js is not part of this model beyond the `Verifier` and `sign` parameters.
- **Plumbing.** Express, mongoose, dotenv, `connectDB`, `process.exit`, CORS, the body limit, the 404/500 handlers, `listen` and logging are I/O.
- **The Mongoose schema.** The schema file is not part of this model, so `walletBalance` is never given a default: a new record has none.
- **Database errors.** A duplicate-key error from a unique index is one more way for `save()` to throw (`SaveThrows`, answered 500).
- **The axios client.** The instance, the endpoint table and the response interceptor's 401 redirect through `window.location` are left out. The request interceptor's header is `AuthMiddleware.AuthorizationHeader`.
- **The client token service.** It is not part of this model. Its `getToken` is the session's `storedToken`. Its `isTokenExpired` is an input that never throws.
- AuthRoutes.RegisterRequest / AuthRoutes.LoginRequest: body fields are modelled as optional strings and an optional boolean, and the body itself as always present. Three behaviours of untyped JSON are therefore not captured:
  - `rememberMe: "false"` is truthy, so it would yield a 30-day token.
  - An object such as `{"$ne": null}` as `userInput` is passed through to `findOne` as a query operator.
  - A request with no parsed body makes the destructuring throw, which is answered 500.
- AuthRoutes.VerifyHandler: the `user` it sends is the stored document without its password (keyed `_id`, with any further schema fields), while the model uses the same `Profile` projection as register and login.
- **Concurrency.** Each `await` is a sequential step. Concurrent registrations racing past the duplicate check, and React's batching of state updates, are not modelled.
- **Client presentation.** Rendering, class names, show/hide-password toggles, the navbar and sidebar, and the one-second `setTimeout` before navigating are left out. The navigation is returned as the redirect target instead of being performed.
- **Routing.**
  - Routing.Resolve: chooses the first matching route in table order rather than modelling React Router's ranking. The two agree on this table because its static paths outrank "/*" patterns, which outrank "*".
  - Path matching is exact and case-sensitive. React Router ignores case and a trailing slash, so "/Login" or "/login/" resolve differently here.
  - The search and hash parts of a location are not modelled.
- **Routing.Settle:** stops after a fuel bound of steps. Three steps suffice from every path (Routing.NoRedirectLoop).
- **Remember-me and later API calls.** A login without remember-me stores no token, so later API calls from that session carry no `Authorization` header. The model records this through `Session.Login` but does not model those later calls.
- **The admin redirect.** `DefaultRoute` compares the user's email with the fixed "admin@app.com". Setting ADMIN_EMAIL therefore sends the seeded admin to the user dashboard (EndToEnd.SeededAdminLandsOnDashboard).
- **The admin seed's exceptions.** The seed only logs them. AdminSeed.SeedAdmin returns nothing, so "not propagated" is the absence of an error result.
