# SSO broker: credential check, session store and request gating

A Dafny model of a small single-sign-on broker written in TypeScript on NestJS.
The broker checks a username and password against stored PBKDF2 hashes. It keeps
sessions in a JSON file mirrored by an in-memory cache, and sets a `session_id`
cookie on sign-in. It trades a live session for a signed token
`{iss, aud, sub}` (the registered claims of sections 4.1.1, 4.1.3 and 4.1.2 of
RFC 7519). `root` and `login` check the callback URL against an exact-match
allow-list. `getToken` first requires the session cookie, then checks the audience
and the origin against their lists. `logout` checks no list.

The model has three parts.

- `password_utils.dfy` (module `PasswordUtils`) holds the password functions.
  `GenerateHashPassword` and `IsPasswordCorrect` are pure functions. PBKDF2-HMAC-SHA256
  (section 5.2 of RFC 8018) is the function parameter `derive`. The random salt
  bytes are a parameter. The constants are 256 key bytes, 64 salt bytes and 10000
  iterations. `hex.dfy` models Node's lower-case `hex` encoding and gives it a
  decoding partner.
- `app_service.dfy` (module `Service`) holds `AppService` as a class. The field
  `cachedSessions` is `None` until the lazy load. `sessionsFile` is the file's
  content. The ghost field `persisted` receives a snapshot of the cache on every
  successful write. The ghost field `fileReads` counts reads of the file.
  `Valid()` says that once something has been written, the cache is loaded and
  the file holds the serialisation of `persisted`. `Sessions()` is the map as
  `getSessions` would return it. Every method states its new state in terms of
  the old `Sessions()`.
- `app_controller.dfy` (module `Controller`) holds `AppController`. `Root` and
  `TokenDecision` are pure decisions over the settings' allow-lists. `Login`,
  `GetToken` and `Logout` are methods that call the session store. They return
  a `Response` value that records the status, redirect, cookie or token payload.
  `js.dfy` models the JavaScript built-ins the handlers rely on: `trim`,
  `Array.prototype.includes` and property lookup through `Object.prototype`.
  `uri.dfy` models `encodeURIComponent` and `decodeURIComponent`, UTF-8
  included, and the `&`-separated fields of a query string.

The model follows the code:

- `isPasswordCorrect` compares the hex texts with `===` (src/password.utils.ts:63).
- A stored session is kept until logout. `sessionLength` only sets the cookie's `maxAge` (src/app.controller.ts:93-98).
- A PBKDF2 error makes sign-in fail with an error. It does not return `false`.
- `createSession` takes the session id from `uuid()` (src/app.service.ts:61). The
  model passes the id in as a parameter and, like the code, does not check it is new.

## Model

| member | source | states |
|---|---|---|
| `Hex.HexEncode` | src/password.utils.ts:37 | the hex text of n bytes has 2n characters, all lower-case hex digits |
| `Hex.DecodeIffEncoding` | src/password.utils.ts:63 | a string decodes to some bytes exactly when it is their hex encoding, so comparing hex texts compares the bytes |
| `Js.TrimEmptyIffBlank` | src/app.service.ts:50 | `s.trim()` is empty exactly when every character of `s` is JavaScript white space or a line terminator |
| `Js.Includes` | src/app.controller.ts:114-118 | `includes` is exact membership; an absent query value is on no list |
| `Uri.EncodeUriComponent` | src/app.controller.ts:103-105 | the encoding holds only unreserved characters and `%`, so it never holds `&`, `#` or `=` |
| `Uri.EncodeUnreservedIsIdentity` | src/app.controller.ts:103-105 | a string of unreserved characters is encoded as itself |
| `Uri.DecodeEncodeUriComponent` | src/app.controller.ts:103-105 | decodeURIComponent gives back exactly the string encodeURIComponent was given, for every string |
| `Uri.QueryFieldsOfJoin` | src/app.controller.ts:103 | splitting a query joined with `&` gives the fields back when none holds an `&` |
| `PasswordUtils.GenerateHashPassword` | src/password.utils.ts:18-44 | a derivation error rejects; otherwise iterations is 10000, the salt is the 128-character hex text of the 64 random bytes, and the hash encodes the key derived from the password with that salt text (512 characters when the derivation honours the key length) |
| `PasswordUtils.IsPasswordCorrect` | src/password.utils.ts:46-68 | a derivation error rejects and is never `true`; otherwise the answer is yes exactly when the saved hash encodes the key derived from the attempt with the saved salt and iterations |
| `PasswordUtils.GeneratedPasswordVerifies` | src/password.utils.ts:25-63 | the record generated for a password accepts that password |
| `PasswordUtils.AcceptedAttemptDerivesSameKey` | src/password.utils.ts:53-63 | a generated record accepts an attempt only when the attempt derives the same key as the original password |
| `Service.LoadSessions` | src/app.service.ts:48-54 | a missing or blank sessions file gives the empty map; any other content is parsed, and a parse failure is an error |
| `Service.ReloadRestoresSessions` | src/app.service.ts:66-67 | if parsing undoes serialising, loading a file written from a map gives that map back, as after a restart |
| `Service.AppService.constructor` | src/app.service.ts:21-29 | a new service has the given credentials, has read no file and has no cache |
| `Service.AppService.SignIn` | src/app.service.ts:31-44 | an unknown username gives `false` with no derivation; for a known one the result is exactly `isPasswordCorrect` on its stored record: yes exactly when its stored hash encodes the key derived from the password, and an error exactly when that derivation fails |
| `Service.SignInAcceptsProvisionedPassword` | src/app.service.ts:38-43 | a user stored with the record generated for a password signs in with that password |
| `Service.AppService.GetSessions` | src/app.service.ts:46-58 | the file is read only while the cache is empty; after a load the same map is returned and nothing is read again |
| `Service.AppService.WriteSessions` | src/app.service.ts:66-67 | a successful write makes both the file and `persisted` the current cache; a failed write changes neither |
| `Service.AppService.CreateSession` | src/app.service.ts:60-70 | the cache becomes the loaded map with `{username, ip, timestamp}` under the new id and all other entries unchanged; after a successful write `persisted` equals the cache; a failed write leaves the cache ahead of the file |
| `Service.AppService.GetSession` | src/app.service.ts:72-75 | returns the loaded entry for the id, or none, and changes nothing beyond the lazy load |
| `Service.AppService.DeleteSession` | src/app.service.ts:77-82 | the cache loses exactly that id; an absent id changes no entry and is no error; after a successful write `persisted` equals the cache |
| `Controller.ErrorRedirectCarriesSubmittedValues` | src/app.controller.ts:102-106 | the failed-login redirect has no fragment and exactly the fields error, username and callbackUrl, whose decoded values are the submitted username and callback URL |
| `Controller.ErrorRedirectAsWrittenHashEndsQuery` | src/app.controller.ts:102-106 | with the username inserted unencoded, a `#` in it puts a `#` into the URL |
| `Controller.ErrorRedirectAsWrittenAmpersandSplitsUsername` | src/app.controller.ts:102-106 | with the username inserted unencoded, `first&second` yields four fields, the username field being `first` |
| `Controller.TokenDecision` | src/app.controller.ts:114-137 | a token is issued exactly when there is a session cookie, the audience and the origin are allowed and the id names a session; its claims are the SSO URL, the requested audience and the session's username; every other case is 401 |
| `Controller.TokenDecisionAsWritten` | src/app.controller.ts:123-137 | as written, a token is also issued for an id that names a member of `Object.prototype`, and that token has no subject |
| `Controller.PrototypeSessionIdGetsToken` | src/app.controller.ts:123-129 | with no session at all, cookie `session_id=constructor` and an allowed audience and origin get a token from the code as written |
| `Controller.TokenDecisionsAgreeOnOtherIds` | src/app.controller.ts:123-129 | the two decisions differ only on ids that are not sessions but are `Object.prototype` members |
| `Controller.AppController.constructor` | src/app.controller.ts:28-36 | the controller keeps the settings, parsed from settings.json in the code and given as a value here, and the service it is given |
| `Controller.AppController.Root` | src/app.controller.ts:49-69 | a callback URL not on the list gives only 'Not a valid callbackUrl'; the wrong-credentials form, with the username defaulting to '', is rendered exactly when the callback URL is allowed and error is 'wrongUsernameOrPassword'; the plain login form exactly when the callback URL is allowed and error is anything else or absent |
| `Controller.AppController.Login` | src/app.controller.ts:72-108 | a disallowed callback URL gives 400 with no sign-in and no change; a failed sign-in redirects to the error page and changes nothing; a successful one adds exactly one session for the user and request address, sets the httpOnly cookie `session_id` with maxAge sessionLength*1000, and redirects to the callback URL; a failed load changes nothing, a successful write makes the file the serialised cache, and a failed write leaves the file and `persisted` as they were |
| `Controller.AppController.GetToken` | src/app.controller.ts:111-138 | 401 without a cookie or with a disallowed audience or origin, before the store is loaded; otherwise the result of `TokenDecision` on the loaded sessions; the store is never changed |
| `Controller.AppController.Logout` | src/app.controller.ts:141-155 | deletes the session only when the cookie holds a non-empty id; answers with the cookie at maxAge 0 unless loading or writing the sessions fails, which ends the request with that error before the cookie is set; a failed load changes nothing, and a failed write leaves the file and `persisted` as they were |

## Left out

- `src/main.ts`, `src/app.module.ts` and the `iframe` handler (src/app.controller.ts:38-45) are not modelled. They are bootstrapping, JWT module set-up and a view that only echoes settings.
- Token signing and the JWT format are not modelled. The model records the payload handed to `jwtService.sign`. The token expiry (`tokenExpiresIn`) is applied inside that library.
- File access (`src/file.utils.ts`) is not modelled. The sessions file is a field holding its content. Whether `writeFileSync` succeeds is a parameter.
- `JSON.parse` and `JSON.stringify` of the sessions file are the functions `parseSessions` and `stringifySessions`. The credentials file `./data/secrets.json`, which the constructor reads and parses (src/app.service.ts:21-29), is not read: the model's constructor takes the parsed credential map.
- PBKDF2, HMAC-SHA256 and `crypto.randomBytes` are not modelled. They are the parameter `derive` and the salt-bytes parameter. `HonoursKeyLength` is the only assumption made about `derive`, and it is used only for the 512-character hash length.
- `uuid()` and `new Date()` are parameters. The model does not assume the id is new, and neither does the code.
- Promises, `async`/`await` and concurrent requests are not modelled. Operations run one after another, so the lost update of two interleaved read-modify-write cycles on the sessions file is not represented.
- Request fields are strings, or `Option` where their absence changes a branch. Repeated query parameters, which Express turns into arrays, are not modelled.
- The unused address computation at src/app.controller.ts:86-90 is not modelled. The session gets the request address `req.ip`, as in the code.
- `sessionLength * 1000` uses mathematical integers, not JavaScript's floating-point numbers.
- On logout without a cookie, Express writes the cookie value `undefined`. The model records the absent value as `None`.
- Service.AppService.SignIn: a username naming an `Object.prototype` member such as `constructor` finds an inherited value in the code. The derivation then throws a TypeError. The model treats that username as unknown and returns `false`.
- Service.AppService.GetSession: as with `getToken`, `sessions[id]` in the code also finds `Object.prototype` members. The model uses own entries only (see Findings).
- Controller.AppController.GetToken: the model looks up own entries only, which is the corrected form. The code's `sessions[sessionId]` also finds `Object.prototype` members (see Findings).
- Controller.AppController.Login: the model redirects with the username encoded, which is the corrected form (see Findings).

## Findings

| source | as written | input that shows it | evidently intended | confidence | as-written member | corrected member |
|---|---|---|---|---|---|---|
| src/app.controller.ts:123-129 | `sessions[sessionId]` also finds members inherited from `Object.prototype`. These are not null, so the null check passes and a payload with `sub: session.username`, i.e. undefined, is signed | no session at all; cookie `session_id=constructor`; any allowed `aud` and `origin` | 401 unless the id is a stored session; the token always names the session's user | medium (not executed) | `Controller.TokenDecisionAsWritten` with `Controller.PrototypeSessionIdGetsToken` | `Controller.TokenDecision`, used by `Controller.AppController.GetToken` |
| src/app.controller.ts:102-106 | the username goes into the redirect's query unencoded, though the callback URL is encoded | username `a#b` or `a&b` with a wrong password | the login page reads back the typed username and the callback URL | medium (not executed) | `Controller.ErrorRedirectAsWritten` with `Controller.ErrorRedirectAsWrittenHashEndsQuery` and `Controller.ErrorRedirectAsWrittenAmpersandSplitsUsername` | `Controller.ErrorRedirect` with `Controller.ErrorRedirectCarriesSubmittedValues`, used by `Controller.AppController.Login` |

In the second row, a `#` in the username turns the callback URL into a URL fragment. The login page then answers 'Not a valid callbackUrl'.
