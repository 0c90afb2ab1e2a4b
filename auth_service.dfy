/** The authentication service (internal/services/auth/auth.go).

    Auth holds its collaborators, set once by the constructor: a user saver,
    a user provider and an app provider, here each an account directory,
    and the token lifetime. Login and IsAdmin only read the directory;
    Register adds a user to it. The library primitives the pipelines call
    (IDKey, the PEM and x509 codecs, the JWS signer) come in as a Crypto
    value, the clock as nowNanos, crypto/rand as an Entropy, and whatever
    the database driver reports for each statement as a fault. */
module AuthService {
  import opened Errors
  import PasswordHash
  import KeyGen
  import Jwt
  import Sqlite

  const LoginOp := "Auth.Login"
  const RegisterOp := "Auth.Register"
  const IsAdminOp := "Auth.IsAdmin"

  /** The library code the service reaches through the hash and jwt
      packages. */
  datatype Crypto = Crypto(idKey: PasswordHash.Kdf, codecs: KeyGen.Codecs, sign: Jwt.Signer)

  /** The collaborator calls Login makes, in the order it makes them. */
  datatype Step = LookUpUser | CheckPassword | LookUpApp | IssueToken

  /** What Login returns for a wrong email or password, and in this
      revision for an unknown app too. */
  const InvalidCredentials := Wrapped(LoginOp, Sentinel(ErrInvalidCredentials))

  class Auth {
    const usrSaver: Sqlite.Storage
    const usrProvider: Sqlite.Storage
    const appProvider: Sqlite.Storage
    /** the token lifetime, in nanoseconds */
    const tokenTTL: int

    ghost predicate Valid()
      reads usrSaver, usrProvider, appProvider
    {
      usrSaver.Valid() && usrProvider.Valid() && appProvider.Valid()
    }

    /** New */
    constructor (userSaver: Sqlite.Storage, userProvider: Sqlite.Storage, appProvider: Sqlite.Storage, tokenTTL: int)
      ensures this.usrSaver == userSaver && this.usrProvider == userProvider
      ensures this.appProvider == appProvider && this.tokenTTL == tokenTTL
    {
      this.usrSaver := userSaver;
      this.usrProvider := userProvider;
      this.appProvider := appProvider;
      this.tokenTTL := tokenTTL;
    }

    /** Login: look up the user, check the password, look up the app, issue
        the token, stopping at the first failure. steps records the calls
        made. */
    method Login(crypto: Crypto, email: string, password: string, appID: int, nowNanos: int,
                 userFault: Option<Error>, appFault: Option<Error>)
      returns (token: string, err: Option<Error>, ghost steps: seq<Step>)
      requires Valid()
      // no token without success
      ensures err.Some? ==> token == ""
      // the user lookup fails: an unknown email reads as invalid credentials, anything else is wrapped
      ensures var u := usrProvider.User(email, userFault);
              u.Failure? ==>
                && steps == [LookUpUser]
                && (Is(u.error, StorageErrUserNotFound) ==> err == Some(InvalidCredentials))
                && (!Is(u.error, StorageErrUserNotFound) ==> err == Some(Wrapped(LoginOp, u.error)))
      // the password check fails, for whatever reason
      ensures var u := usrProvider.User(email, userFault);
              u.Success? &&
              PasswordHash.ComparePassword(crypto.idKey, password, u.value.passwordSalt, u.value.passwordHash).Some? ==>
                steps == [LookUpUser, CheckPassword] && err == Some(InvalidCredentials)
      // the app lookup fails: an unknown app also reads as invalid credentials
      ensures var u := usrProvider.User(email, userFault);
              var a := appProvider.App(appID, appFault);
              u.Success? &&
              PasswordHash.ComparePassword(crypto.idKey, password, u.value.passwordSalt, u.value.passwordHash).None? &&
              a.Failure? ==>
                && steps == [LookUpUser, CheckPassword, LookUpApp]
                && (Is(a.error, StorageErrAppNotFound) ==> err == Some(InvalidCredentials))
                && (!Is(a.error, StorageErrAppNotFound) ==> err == Some(Wrapped(LoginOp, a.error)))
      // all three succeed: the result is the issuer's, its error wrapped
      ensures var u := usrProvider.User(email, userFault);
              var a := appProvider.App(appID, appFault);
              u.Success? &&
              PasswordHash.ComparePassword(crypto.idKey, password, u.value.passwordSalt, u.value.passwordHash).None? &&
              a.Success? ==>
                var issued := Jwt.NewToken(crypto.codecs, crypto.sign, u.value, a.value, nowNanos, tokenTTL);
                && steps == [LookUpUser, CheckPassword, LookUpApp, IssueToken]
                && (issued.1.None? ==> token == issued.0 && err == None)
                && (issued.1.Some? ==> err == Some(Wrapped(LoginOp, issued.1.value)))
      // success means: the email is registered, the password matches, the app exists
      ensures err.None? ==>
                && userFault.None? && usrProvider.HasEmail(email)
                && appFault.None? && appID in appProvider.apps
                && steps == [LookUpUser, CheckPassword, LookUpApp, IssueToken]
      // an unregistered email cannot be told apart from a wrong password
      ensures userFault.None? && !usrProvider.HasEmail(email) ==>
                token == "" && err == Some(InvalidCredentials)
                && !Is(err.value, StorageErrUserNotFound)
      // an expired deadline in the user lookup surfaces as one
      ensures userFault.Some? && Is(userFault.value, DeadlineExceeded) ==>
                err.Some? && Is(err.value, DeadlineExceeded)
    {
      steps := [LookUpUser];
      var userResult := usrProvider.User(email, userFault);
      if userResult.Failure? {
        if Is(userResult.error, StorageErrUserNotFound) {
          if userFault.Some? && Is(userFault.value, DeadlineExceeded) {
            IsAtMostOne(userResult.error, StorageErrUserNotFound, DeadlineExceeded);
          }
          return "", Some(InvalidCredentials), steps;
        }
        return "", Some(Wrapped(LoginOp, userResult.error)), steps;
      }
      var user := userResult.value;

      steps := steps + [CheckPassword];
      if PasswordHash.ComparePassword(crypto.idKey, password, user.passwordSalt, user.passwordHash).Some? {
        return "", Some(InvalidCredentials), steps;
      }

      steps := steps + [LookUpApp];
      var appResult := appProvider.App(appID, appFault);
      if appResult.Failure? {
        if Is(appResult.error, StorageErrAppNotFound) {
          return "", Some(InvalidCredentials), steps;
        }
        return "", Some(Wrapped(LoginOp, appResult.error)), steps;
      }
      var app := appResult.value;

      steps := steps + [IssueToken];
      var issued := Jwt.NewToken(crypto.codecs, crypto.sign, user, app, nowNanos, tokenTTL);
      if issued.1.Some? {
        return "", Some(Wrapped(LoginOp, issued.1.value)), steps;
      }
      return issued.0, None, steps;
    }

    /** Register: hash the password, then save the user; both errors are
        wrapped, none translated. */
    method Register(crypto: Crypto, rand: PasswordHash.Entropy, email: string, password: string, saveFault: Option<Error>)
      returns (userID: int, err: Option<Error>)
      requires Valid()
      modifies usrSaver
      ensures Valid()
      ensures err.Some? ==> userID == 0 && unchanged(usrSaver)
      ensures usrSaver.apps == old(usrSaver.apps)
      // hashing fails (the empty password, a failed salt read): nothing is saved
      ensures var h := PasswordHash.HashPassword(crypto.idKey, rand, password);
              h.Failure? ==> err == Some(Wrapped(RegisterOp, h.error))
      // the saver fails: its error, wrapped
      ensures var h := PasswordHash.HashPassword(crypto.idKey, rand, password);
              h.Success? && saveFault.Some? ==>
                err == Some(Wrapped(RegisterOp, Wrapped(Sqlite.SaveUserOp, saveFault.value)))
      ensures var h := PasswordHash.HashPassword(crypto.idKey, rand, password);
              h.Success? && saveFault.None? && old(usrSaver.HasEmail(email)) ==>
                err == Some(Wrapped(RegisterOp, Wrapped(Sqlite.SaveUserOp, Sentinel(StorageErrUserExists))))
      // success: one new row with the hash and salt, not an admin
      ensures var h := PasswordHash.HashPassword(crypto.idKey, rand, password);
              h.Success? && saveFault.None? && !old(usrSaver.HasEmail(email)) ==>
                && err == None
                && userID == old(usrSaver.nextId)
                && usrSaver.nextId == old(usrSaver.nextId) + 1
                && usrSaver.users == old(usrSaver.users)[userID := Sqlite.UserRow(email, h.value.hash, h.value.salt, false)]
                && usrSaver.IsAdmin(userID, None) == (false, None)
      // the account just created accepts its own password
      ensures err.None? && PasswordHash.YieldsKeyLength(crypto.idKey) ==>
                var u := usrSaver.User(email, None);
                u.Success? && u.value.id == userID &&
                PasswordHash.ComparePassword(crypto.idKey, password, u.value.passwordSalt, u.value.passwordHash) == None
    {
      var passData := PasswordHash.HashPassword(crypto.idKey, rand, password);
      if passData.Failure? {
        return 0, Some(Wrapped(RegisterOp, passData.error));
      }
      var id, saveErr := usrSaver.SaveUser(email, passData.value.hash, passData.value.salt, saveFault);
      if saveErr.Some? {
        return 0, Some(Wrapped(RegisterOp, saveErr.value));
      }
      return id, None;
    }

    /** IsAdmin: the provider's flag, or false and its error wrapped. */
    method IsAdmin(userID: int, fault: Option<Error>) returns (isAdmin: bool, err: Option<Error>)
      requires Valid()
      ensures err.Some? ==> !isAdmin
      ensures fault.None? && userID in usrProvider.users ==>
                isAdmin == usrProvider.users[userID].isAdmin && err == None
      ensures fault.None? && userID !in usrProvider.users ==>
                err == Some(Wrapped(IsAdminOp, Wrapped(Sqlite.IsAdminOp, Sentinel(StorageErrUserNotFound))))
      ensures fault.Some? ==> err == Some(Wrapped(IsAdminOp, Wrapped(Sqlite.IsAdminOp, fault.value)))
    {
      var (flag, providerErr) := usrProvider.IsAdmin(userID, fault);
      if providerErr.Some? {
        return false, Some(Wrapped(IsAdminOp, providerErr.value));
      }
      return flag, None;
    }
  }
}
