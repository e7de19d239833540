# AuthService credential service — a Dafny model

This project models `AuthService` of the auth microservice. The service keeps
one piece of state, the `user` table, and offers three operations:

- **registerUser** looks the email up. It refuses an email that is already
  taken. Otherwise it creates a row whose password is the bcrypt hash at cost
  10. It answers with the row minus `password` and a JWT signed over those
  fields.
- **loginUser** looks the email up and compares the password with the stored
  hash. An unknown email and a wrong password give the same answer. On
  success it answers like registerUser.
- **verifyToken** verifies a token and removes three of the registered claims
  of section 4.1 of RFC 7519, `sub`, `iat` and `exp`, from its payload; the
  others (`iss`, `aud`, `nbf`, `jti`) stay. It re-signs
  what is left. Every failure becomes one 401 answer.

Files:

- `json.dfy` (module `Json`): JSON values and objects. `Rest` is object rest
  destructuring (`const { a, ...rest } = obj`).
- `password_hasher.dfy` (module `PasswordHasher`): bcrypt as a pair of
  functions `hash(plaintext, cost, salt)` and `compare(plaintext, hash)`. The
  one property the service relies on is the predicate `Sound`: a plaintext
  always matches a hash made from it. bcrypt draws its salt at random, so
  the salt is an explicit argument.
- `token_codec.dfy` (module `TokenCodec`): the JWT service as a pair of
  functions `sign(payload)` and `verify(token)`. `sign` may fail with a
  message. `verify` returns `None` for every way it throws. The property
  `RoundTrips` says that a signed token verifies back to its payload, up to
  `sub`, `iat` and `exp`.
- `auth_service.dfy` (module `Auth`): the class `AuthService`, with the
  `user` table as a `map` keyed by email, a fresh-id counter standing for
  the table's id generator, and the hasher and codec as constants. The file
  also holds lemmas that relate operations, and two client methods that run
  operations in sequence.

Answers are `Ok(user, token)` or `Err(status, message)`. `Err` stands for
the `RpcException` that the operation throws. An `RpcException` built from
`{ status, message }` reports that same `message`. So the catch blocks of
registerUser and loginUser rethrow the inner message unchanged, with
status 400.

Three details of the code are modelled as written:

- The code echoes the caught error's message to the caller (lines 74-79,
  108-113). It does not replace internal causes with a generic message.
- verifyToken strips `sub` as well as `iat` and `exp` (line 33).
- A failure while signing after `create` leaves the new row in the table,
  although the caller receives an error (lines 62-79). A retry then gets
  'User already exists'. `RegisterUser` states this.

## Model

| member | source | states |
|---|---|---|
| `Auth.WithoutPassword` | src/auth/auth.service.ts:103 | The public user has exactly `id`, `email` and `name`, copied from the row. It has no `password` and none of `sub`, `iat`, `exp`. |
| `Auth.AuthService.constructor` | src/auth/auth.service.ts:16-20 | A new service holds bcrypt (imported) as its hasher, the injected JWT service as its codec, and the existing table and id counter it is opened on, which must satisfy the table invariant (`TableValid`). |
| `Auth.AuthService.SignJwt` | src/auth/auth.service.ts:27-29 | Under a round-tripping codec, a token it returns verifies to the same payload, up to `sub`, `iat` and `exp`. |
| `Auth.AuthService.VerifyToken` | src/auth/auth.service.ts:31-46 | A rejected token, and any failure at all, gives exactly `Err(401, 'Invalid token')`. Success means the token verified. The user is then the decoded payload minus `sub`/`iat`/`exp`, and the new token is signed over exactly that user. Success is guaranteed when verify and re-sign both succeed. No `reads` clause: the table is neither read nor written. |
| `Auth.AuthService.RegisterUser` | src/auth/auth.service.ts:48-80 | A taken email gives `Err(400, 'User already exists')` and leaves table and counter unchanged. A fresh email adds exactly one row (the table grows by one, other rows unchanged): fresh id, given email and name, password `hash(password, 10, salt)`. The call succeeds exactly when signing succeeds: user = row minus password, token signed over that user. Otherwise it gives `Err(400, <sign error message>)` with the row kept. The table invariant is preserved. |
| `Auth.AuthService.LoginUser` | src/auth/auth.service.ts:82-114 | Succeeds exactly when the email is present, `compare(password, storedHash)` holds and signing succeeds. Then the user is the stored row minus password and the token is signed over it. An unknown email or a wrong password gives exactly `Err(400, 'User/Password not valid')`. Every error has status 400. When the password matches but signing fails, the answer is exactly `Err(400, <signing error's message>)`. Over a valid table, the user a login returns carries the email it logged in with. It is a function: the table is not modified. |
| `Auth.LoginDistinguishesUsers` | src/auth/auth.service.ts:85-107 | Over a valid table, two different emails that both log in get users with different ids. |
| `Auth.LoginNoEnumeration` | src/auth/auth.service.ts:90-101 | An unknown email and a known email with a wrong password produce the identical answer `Err(400, 'User/Password not valid')`. |
| `Auth.LoginAfterRegister` | src/auth/auth.service.ts:62-66 | For a row stored with `hash(password, 10, salt)` and a sound hasher, login with that password returns that row's public fields whenever signing succeeds. Its only possible error is the signing error. |
| `Auth.VerifyAfterSign` | src/auth/auth.service.ts:31-39 | Under a round-tripping codec, a token signed over a payload without `sub`, `iat` and `exp` verifies, and is refreshed to exactly that payload. |
| `Auth.VerifyAfterLogin` | src/auth/auth.service.ts:103-107 | Under a round-tripping codec, the token that a successful login returns verifies to the same public user. |
| `Auth.RefreshKeepsUser` | src/auth/auth.service.ts:33-39 | Under a round-tripping codec, verifying the refreshed token succeeds again with the same user fields. |
| `Auth.VerifyIgnoresStore` | src/auth/auth.service.ts:31-39 | Two services with the same codec answer verifyToken identically, whatever their tables hold. A deleted user's token stays valid until it expires. |
| `Auth.RegisterThenLogin` | src/auth/auth.service.ts:48-107 | Register followed by login with the same password and a sound hasher: if registration succeeds, login succeeds with the same public user, and `password` is absent. |
| `Auth.RegisterTwice` | src/auth/auth.service.ts:51-61 | Registering an email twice: the second answer is `Err(400, 'User already exists')`. The table afterwards is the old table if the email was taken, otherwise the old table plus exactly the first call's row; the second call overwrites nothing. |

## Left out

- `src/config/envs.ts` is not part of this model. It reads environment variables and validates them with Joi when the module is imported.
- `onModuleInit`, `$connect` and the `Logger` (lines 22-25): database connection and logging I/O.
- bcrypt internals: salting, the work done for the cost factor, constant-time comparison, and truncation of long passwords. Only `Sound` is assumed. The model does not assume that a wrong password fails to match.
- JWT cryptography, the secret and the clock. `verify` passes `envs.jwtSecret` explicitly, while `sign` uses the module's default secret; both are taken to be the same key. Expiry is one of the ways `verify` may return `None`. Without a clock, `sign` is a function of the payload alone, so the model cannot state that a refreshed token carries a later expiry. The lemmas claim equal user fields, not equal or fresh tokens.
- A `verify` payload that is a string rather than an object. Destructuring would then spread its characters. The model's `verify` returns objects only.
- Failures of the database calls (`findUnique`, `create`): the code would answer 400 with the database error's message. The table is a `map`, and lookup and insert cannot fail.
- Two concurrent registrations of one email racing between lookup and `create`. Operations are modelled one at a time.
- Columns of the `user` table other than `id`, `email`, `name` and `password`. The table's schema is not part of this model. The id is modelled as a counter.
- JSON values other than strings, integers, booleans and null: arrays, nested objects and non-integer numbers are not modelled, and integers are unbounded where JavaScript numbers are doubles. A token whose payload holds such claims cannot be represented, although `verifyToken` would pass them through to the re-signed user.
- async/await, NestJS dependency injection, the `RpcException` transport, and validation of the request DTOs.
