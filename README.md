# sso credential service — a Dafny model

This project models the core of the `sso` single-sign-on service: the
authentication service that turns (email, password, app id) into a signed
token, (email, password) into a new account, and a user id into an admin
flag; the Argon2id password hasher; the RS256 token issuer; the PEM/x509
RSA key text parsers; the gRPC handlers' validation and error-to-status
tables; and the SQLite account directory, here as in-memory tables.

Layout, one module per Go file:

| file | module | Go source |
|---|---|---|
| errors.dfy | `Errors` | Go error values: sentinels, `%w` wrapping, `errors.Is` |
| models.dfy | `Models` | `models.User`, `models.App` |
| hash.dfy | `PasswordHash` | internal/lib/hash/argon2.go |
| keygen.dfy | `KeyGen` | internal/lib/keygen/rsa.go |
| jwt.dfy | `Jwt` | internal/lib/jwt/jwt.go |
| sqlite.dfy | `Sqlite` (class `Storage`) | internal/storage/sqlite/sqlite.go, internal/storage/storage.go |
| auth_service.dfy | `AuthService` (class `Auth`) | internal/services/auth/auth.go |
| grpc_auth.dfy | `GrpcAuth` | internal/grpc/auth/auth.go |

How the model stands in for what it cannot contain:

- Go errors are the datatype `Errors.Error`: `Sentinel(kind)` for a value made
  with `errors.New`, `Wrapped(prefix, cause)` for `fmt.Errorf("…: %w")`,
  `Opaque(text)` for an error that wraps nothing. `Errors.Is` is `errors.Is`.
  The sentinels `auth.ErrInvalidAppID`, `auth.ErrUserExists` and
  `auth.ErrUserNotFound`, which the gRPC handlers test for but which are not
  declared in the service file, are kept distinct from the storage sentinels.
- Library code is passed in as function-typed parameters: `argon2.IDKey`
  (`PasswordHash.Kdf`), `encoding/pem` and `crypto/x509` (`KeyGen.Codecs`),
  `rsa.GenerateKey`, and JWS signing (`Jwt.Signer`). What the libraries
  promise, on the inputs this code gives them, is stated as ghost predicates
  and required only by the lemmas that use it. `YieldsKeyLength` says that
  IDKey at the fixed costs returns 32 bytes. `RoundTrips` says that a PEM
  block labelled "RSA PRIVATE KEY" or "PUBLIC KEY", with no headers,
  decodes back to itself. It also says that, for a key
  returned by `rsa.GenerateKey`, the PKCS#1 and PKIX parsers invert the
  marshallers. Neither predicate covers inputs Go's libraries reject or do
  not read back, such as header keys with ':', block types containing a
  newline, keys that fail `Validate`, or zero Argon2 costs.
- `crypto/rand` is `PasswordHash.Entropy`: a byte stream or a read failure.
  The clock is a parameter in nanoseconds since the Unix epoch.
- Each database statement's own failure (a failed prepare or exec, a broken
  connection, an expired context deadline) is a `fault: Option<Error>`
  parameter of the storage operation.
- Go strings are Dafny `string`. The `[]byte(password)` and `[]byte(pemKey)`
  conversions happen inside the library parameters.
- Go's `(value, error)` pairs are kept where the source promises the zero
  value on failure ("" for Login, 0 for Register, false for IsAdmin). Where it
  returns a nil pointer or an unspecified struct, the model uses
  `Result<T>`.
- `Auth.Login` returns a ghost trace `steps` of the collaborator calls it
  made. This states the order of the pipeline: no app lookup before the
  password check, no token before the app lookup.

Where the code and the design disagree, the model follows the code:

- Login maps an unknown app to `ErrInvalidCredentials`
  (internal/services/auth/auth.go:91-93), not to a distinct invalid-app-id
  error. The gRPC handler's `ErrInvalidAppID` branch therefore matches no error
  the shown service returns.
- `Register` and `IsAdmin` wrap storage errors without translating them
  (internal/services/auth/auth.go:129-133, 151-154). A duplicate email
  therefore reaches the gRPC handler as `storage.ErrUserExists`. It maps to
  AlreadyExists only if `auth.ErrUserExists` is that same value, and that
  declaration is not part of this model. `GrpcAuth.StorageSentinelsAreInternal`
  states what happens when the two are distinct.
- Cross-file mismatches in the source, noted and not resolved:
  - internal/services/auth/auth.go:11 imports `sso/internal/services/storage`,
    but the sentinels live in internal/storage/storage.go:9-13. The model uses
    the latter.
  - internal/services/auth/auth.go:102 calls `jwt.NewToken` as a package
    function, while internal/lib/jwt/jwt.go:28 declares it as a method of
    `*JWT`. The receiver holds only a logger, so `Jwt.NewToken` is a function.
  - internal/app/app.go:30 calls `auth.New` with 3 arguments, while
    internal/services/auth/auth.go:44-50 takes 5. The model follows the
    declaration.

## Model

| member | source | states |
|---|---|---|
| `Errors.Is` | internal/services/auth/auth.go:75-77 | `errors.Is(err, target)` holds iff the target sentinel occurs in the chain of errors reached by unwrapping `err` |
| `Errors.IsSurvivesWrapping` | internal/storage/sqlite/sqlite.go:60-75 | wrapping an error under any number of op-name prefixes keeps every sentinel identity it had and adds none |
| `Errors.IsAtMostOne` | internal/services/auth/auth.go:73-81 | an error matches at most one sentinel, so the first-match tests cannot see two kinds in one error |
| `Errors.Decimal` | internal/lib/hash/argon2.go:46-50 | the `%d` text of a length is a non-empty string of decimal digits with no leading zero that, read back left to right by `DigitsValue`, denotes the length; it has one digit exactly for values below ten |
| `PasswordHash.Derive` | internal/lib/hash/argon2.go:35-57 | both operations run IDKey with time 1, memory 65536 KiB, 4 threads and a 32-byte key; under the library's length promise the result has 32 bytes |
| `PasswordHash.RandRead` | internal/lib/hash/argon2.go:30-33 | a salt read either fills exactly the requested number of bytes or returns the reader's error |
| `PasswordHash.HashPassword` | internal/lib/hash/argon2.go:25-41 | the empty password fails with "password cannot be empty"; a salt-read failure returns the wrapped error and no data; success happens exactly otherwise and gives a 16-byte salt and the IDKey hash of password and salt, 32 bytes long under the library's promise |
| `PasswordHash.ComparePassword` | internal/lib/hash/argon2.go:44-63 | rejects in order: salt length not 16, hash length not 32, empty password; it accepts iff the recomputed hash equals the stored one; no rejection carries a sentinel |
| `PasswordHash.HashThenCompare` | internal/lib/hash/argon2.go:25-63 | for a non-empty password and a working random source, the hash and salt produced by HashPassword are accepted by ComparePassword |
| `PasswordHash.TamperedHashRejected` | internal/lib/hash/argon2.go:57-62 | at most one stored hash is accepted for a password and salt; any altered hash is rejected |
| `KeyGen.SingleBlock` | internal/lib/keygen/rsa.go:55-61 | the text is accepted iff it decodes to a PEM block with nothing after it; no block and trailing data fail with their own messages |
| `KeyGen.ParseRSAPrivateKey` | internal/lib/keygen/rsa.go:54-69 | fails without a PEM block, fails on any trailing data (so multi-block text is refused), fails with the wrapped PKCS#1 error when the block is not PKCS#1, and otherwise returns the parsed key |
| `KeyGen.ParseRSAPublicKey` | internal/lib/keygen/rsa.go:72-92 | the same three checks over PKIX bytes, and a PKIX key of another algorithm fails with "not an RSA public key" |
| `KeyGen.GenerateRSAKeyPair` | internal/lib/keygen/rsa.go:18-51 | any generation or PKIX marshal error returns the wrapped error and no pair; success happens exactly otherwise, and under the round-trip assumption for the two header-free labelled blocks the two texts decode to an "RSA PRIVATE KEY" block over PKCS#1 bytes and a "PUBLIC KEY" block over PKIX bytes, with nothing left over |
| `KeyGen.GeneratedPrivateKeyParses` | internal/lib/keygen/rsa.go:21-68 | under the round-trip assumption, ParseRSAPrivateKey of the generated private text returns the generated key |
| `KeyGen.GeneratedPublicKeyParses` | internal/lib/keygen/rsa.go:34-91 | under the round-trip assumption, ParseRSAPublicKey of the generated public text returns the generated key's public half |
| `KeyGen.ParsersIgnoreBlockType` | internal/lib/keygen/rsa.go:55-81 | acceptance depends only on block presence, no trailing data and the block's bytes; the block type and headers are never read |
| `Jwt.UnixSeconds` | internal/lib/jwt/jwt.go:44 | `Unix()` gives the second in which the instant lies, rounding down for times before the epoch too |
| `Jwt.TokenClaims` | internal/lib/jwt/jwt.go:39-44 | the claim set is exactly uid = user id, email = user email, app_id = app id, and exp = the Unix second of now + duration |
| `Jwt.NewToken` | internal/lib/jwt/jwt.go:28-63 | a malformed private key yields "" and the parse error wrapped as "jwt.NewToken: failed to parse private key"; a signing failure yields "" and the wrapped signing error; otherwise the result is the signer's output for RS256 over exactly those claims with the parsed app key |
| `Jwt.NewTokenIgnoresPublicKey` | internal/lib/jwt/jwt.go:37-54 | the token does not depend on the app's public key or name |
| `Jwt.ExpiryFollowsIssue` | internal/lib/jwt/jwt.go:44 | with a whole-second duration, exp is exactly the second of issue plus the duration in seconds; with any non-negative duration, exp is not before the second of issue |
| `Jwt.UnixSecondsUnique` | internal/lib/jwt/jwt.go:44 | the second computed by `Unix()` is the only one whose span holds the instant |
| `Sqlite.Storage.SaveUser` | internal/storage/sqlite/sqlite.go:59-83 | a driver failure returns 0 and the wrapped error; a duplicate email returns 0 and the wrapped `storage.ErrUserExists`; both leave the tables unchanged. Otherwise exactly one row (email, hash, salt, not admin) is added under the next autoincrement id, which is returned; the counter moves on by one, so successive ids are consecutive; the new row is then found by `User` and `IsAdmin` |
| `Sqlite.Storage.User` | internal/storage/sqlite/sqlite.go:86-107 | returns id, email, hash and salt of the row holding the email, or the wrapped `storage.ErrUserNotFound` when no row holds it; it reads the tables only |
| `Sqlite.Storage.IsAdmin` | internal/storage/sqlite/sqlite.go:109-130 | returns the row's is_admin flag, or false and the wrapped `storage.ErrUserNotFound` when no row has the id |
| `Sqlite.Storage.App` | internal/storage/sqlite/sqlite.go:132-153 | returns the app row with the id, or the wrapped `storage.ErrAppNotFound` when there is none |
| `Sqlite.FaultsKeepTheirIdentity` | internal/storage/sqlite/sqlite.go:87-150 | a driver error, such as an expired deadline, comes out of every lookup wrapped with the op name and matches exactly the sentinels it matched before |
| `AuthService.Auth.constructor` | internal/services/auth/auth.go:44-58 | the service keeps exactly the collaborators and token lifetime it is given |
| `AuthService.Auth.Login` | internal/services/auth/auth.go:61-109 | an email that the provider reports as not found, any password rejection, and an app reported as not found all give "" and `Auth.Login: ErrInvalidCredentials`, which never matches `storage.ErrUserNotFound`; every other provider or token error is returned wrapped with "Auth.Login", keeping its identity (an expired deadline stays one); the app is looked up only after the password check and the token issued only after the app lookup; success gives exactly the NewToken result and implies a registered email, a matching password and an existing app |
| `AuthService.Auth.Register` | internal/services/auth/auth.go:112-138 | a hashing failure returns 0 and the wrapped error without calling the saver; a saver failure or duplicate email returns 0 and the saver's error wrapped with "Auth.Register", directory unchanged; success returns the saver's new id, adds exactly that one row and advances the id counter by one, the new user is not an admin, and the stored hash and salt accept the registering password |
| `AuthService.Auth.IsAdmin` | internal/services/auth/auth.go:141-159 | returns the provider's flag verbatim, or false and the provider's error wrapped with "Auth.IsAdmin", untranslated |
| `GrpcAuth.LoginErrorStatus` | internal/grpc/auth/auth.go:49-60 | invalid credentials or invalid app id map to InvalidArgument, else an expired deadline to DeadlineExceeded "operation timeout", and exactly the remaining errors to Internal "failed to login" |
| `GrpcAuth.Login` | internal/grpc/auth/auth.go:28-65 | empty email, then empty password, then app_id 0 are rejected with InvalidArgument and their messages, whatever the service would say; otherwise the service's token is returned verbatim, or its error mapped by `LoginErrorStatus` |
| `GrpcAuth.RegisterErrorStatus` | internal/grpc/auth/auth.go:84-92 | user exists maps to AlreadyExists "user already exists", else an expired deadline to DeadlineExceeded "operation timeout", and exactly the remaining errors to Internal "failed to register user" |
| `GrpcAuth.Register` | internal/grpc/auth/auth.go:67-97 | empty email, then empty password, are rejected before the service; otherwise the user id is returned verbatim, or the error mapped by `RegisterErrorStatus` |
| `GrpcAuth.IsAdminErrorStatus` | internal/grpc/auth/auth.go:112-120 | user not found maps to NotFound "user not found", else an expired deadline to DeadlineExceeded "operation timeout", and exactly the remaining errors to Internal "failed to check admin status" |
| `GrpcAuth.IsAdmin` | internal/grpc/auth/auth.go:99-124 | user_id 0 is rejected before the service; otherwise is_admin is returned verbatim, or the error mapped by `IsAdminErrorStatus` |
| `GrpcAuth.ValidationPrecedesService` | internal/grpc/auth/auth.go:32-48 | a Login request with a missing field gets the same InvalidArgument reply from any two services, so the service is not consulted |
| `GrpcAuth.StorageSentinelsAreInternal` | internal/grpc/auth/auth.go:49-119 | a storage sentinel that reaches a handler unconverted, under any op-name prefixes, maps to Internal in all three handlers |

## Left out

- Connection setup, DSN pragmas, pool sizing, Ping and Close, prepared-statement lifecycle (internal/storage/sqlite/sqlite.go:21-56): database plumbing. A statement's failure is the `fault` parameter instead.
- Sqlite.Storage.SaveUser: a failure of `LastInsertId` after a successful insert (sqlite.go:77-80) is not modelled; the SQLite driver does not fail there, and the model's `fault` is a failure before the row is written.
- The users and apps schema and migrations are not part of this model. Only the unique index on email, the autoincrement id and the is_admin default of false are assumed.
- Argon2id, RSA key generation, RS256 signing, JWS serialisation, PEM and x509 encoding: foreign library calls, kept as function parameters. Only their output length and encode/decode round trip are assumed, and only where a lemma requires them.
- PasswordHash.ComparePassword: the constant-time behaviour of `subtle.ConstantTimeCompare` (argon2.go:59) is a timing property; the model compares by equality.
- Salt freshness and uniqueness across calls: a randomness claim. The salt comes from the `Entropy` parameter. Rejection of a tampered salt would need collision resistance of Argon2id, so it is not stated either.
- KeyGen.GenerateRSAKeyPair: that the key has the requested number of bits, and that the private key matches the distributed public key, are properties of `rsa.GenerateKey` and are not stated.
- `context.WithTimeout` and cancellation (internal/grpc/auth/auth.go:45-46, 80-81, 108-109): concurrency and timing. Deadline expiry appears only as the `DeadlineExceeded` sentinel arriving through a `fault`.
- All slog logging calls, and the `JWT` struct, which holds only a logger.
- End-to-end status codes from the handlers through the service. They depend on whether `auth.ErrUserExists`, `auth.ErrUserNotFound` and `auth.ErrInvalidAppID` alias the storage sentinels, and those declarations are not part of this model.
- Fixed-width integers: ids, `time.Duration` and the clock are unbounded `int`. The int64 overflow of the id counter or of `time.Now().Add(duration)` is not modelled.
- internal/config/config_test.go, cmd/sso/main.go, cmd/keygen/main.go, internal/app/app.go, tests/suite/suite.go: process wiring, CLI flags, the raw SQL upsert that provisions apps, signal handling and the test client. Apps are given to the `Sqlite.Storage` constructor instead.
