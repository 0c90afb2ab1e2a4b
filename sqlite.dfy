/** The account directory (internal/storage/sqlite/sqlite.go), with the
    SQLite database replaced by in-memory tables.

    The users table has an autoincrement id and a unique index on email;
    the apps table is keyed by id and is provisioned outside the service.
    Each operation takes the failure, if any, that the database driver
    reports for its statement (a failed prepare, a broken connection, an
    expired context deadline). */
module Sqlite {
  import opened Errors
  import Models

  const SaveUserOp := "storage.sqlite.SaveUser"
  const UserOp := "storage.sqlite.User"
  const IsAdminOp := "storage.sqlite.IsAdmin"
  const AppOp := "storage.sqlite.App"

  /** A row of the users table: everything but the id, which is its key. */
  datatype UserRow = UserRow(email: string, passwordHash: seq<Models.byte>, passwordSalt: seq<Models.byte>, isAdmin: bool)

  class Storage {
    /** users, keyed by id */
    var users: map<int, UserRow>
    /** the unique index on users.email */
    var emailIndex: map<string, int>
    /** apps, keyed by id */
    var apps: map<int, Models.App>
    /** the id the next inserted user receives */
    var nextId: int

    ghost predicate Valid()
      reads this
    {
      && nextId >= 1
      && (forall id :: id in users ==> 1 <= id < nextId)
      && (forall e :: e in emailIndex ==> emailIndex[e] in users && users[emailIndex[e]].email == e)
      && (forall id :: id in users ==> users[id].email in emailIndex && emailIndex[users[id].email] == id)
      && (forall id :: id in apps ==> apps[id].id == id)
    }

    /** Some row of the users table holds this email. */
    ghost predicate HasEmail(email: string)
      reads this
    {
      exists id :: id in users && users[id].email == email
    }

    /** An empty users table beside the apps provisioned out of band. */
    constructor (provisioned: map<int, Models.App>)
      requires forall id :: id in provisioned ==> provisioned[id].id == id
      ensures Valid()
      ensures users == map[] && apps == provisioned
      ensures nextId == 1
    {
      users := map[];
      emailIndex := map[];
      apps := provisioned;
      nextId := 1;
    }

    /** SaveUser: insert (email, hash, salt) with is_admin false and return
        the new id; a duplicate email violates the unique index. */
    method SaveUser(email: string, passwordHash: seq<Models.byte>, passwordSalt: seq<Models.byte>, fault: Option<Error>)
      returns (id: int, err: Option<Error>)
      requires Valid()
      modifies this
      ensures Valid()
      ensures apps == old(apps)
      ensures fault.Some? ==> id == 0 && err == Some(Wrapped(SaveUserOp, fault.value)) && unchanged(this)
      ensures fault.None? && old(HasEmail(email)) ==>
                id == 0 && err == Some(Wrapped(SaveUserOp, Sentinel(StorageErrUserExists))) && unchanged(this)
      ensures fault.None? && !old(HasEmail(email)) ==>
                && err == None
                && id == old(nextId) && id !in old(users)
                && nextId == old(nextId) + 1
                && users == old(users)[id := UserRow(email, passwordHash, passwordSalt, false)]
                && User(email, None) == Success(Models.User(id, email, passwordHash, passwordSalt))
                && IsAdmin(id, None) == (false, None)
    {
      if fault.Some? {
        return 0, Some(Wrapped(SaveUserOp, fault.value));
      }
      if email in emailIndex {
        var holder := emailIndex[email];
        assert holder in users && users[holder].email == email;
        return 0, Some(Wrapped(SaveUserOp, Sentinel(StorageErrUserExists)));
      }
      id := nextId;
      users := users[id := UserRow(email, passwordHash, passwordSalt, false)];
      emailIndex := emailIndex[email := id];
      nextId := nextId + 1;
      err := None;
    }

    /** User: the row with this email. */
    function User(email: string, fault: Option<Error>): (r: Result<Models.User>)
      requires Valid()
      reads this
      ensures fault.Some? ==> r == Failure(Wrapped(UserOp, fault.value))
      ensures fault.None? && !HasEmail(email) ==> r == Failure(Wrapped(UserOp, Sentinel(StorageErrUserNotFound)))
      ensures r.Success? <==> fault.None? && HasEmail(email)
      ensures r.Success? ==>
                && r.value.email == email && r.value.id in users
                && users[r.value.id].email == email
                && users[r.value.id].passwordHash == r.value.passwordHash
                && users[r.value.id].passwordSalt == r.value.passwordSalt
    {
      if fault.Some? then Failure(Wrapped(UserOp, fault.value))
      else if email !in emailIndex then Failure(Wrapped(UserOp, Sentinel(StorageErrUserNotFound)))
      else
        var row := users[emailIndex[email]];
        Success(Models.User(emailIndex[email], row.email, row.passwordHash, row.passwordSalt))
    }

    /** IsAdmin: the is_admin flag of the user with this id; false with an
        error when there is none. */
    function IsAdmin(userID: int, fault: Option<Error>): (r: (bool, Option<Error>))
      requires Valid()
      reads this
      ensures r.1.Some? ==> !r.0
      ensures fault.Some? ==> r.1 == Some(Wrapped(IsAdminOp, fault.value))
      ensures fault.None? && userID !in users ==> r.1 == Some(Wrapped(IsAdminOp, Sentinel(StorageErrUserNotFound)))
      ensures fault.None? && userID in users ==> r == (users[userID].isAdmin, None)
    {
      if fault.Some? then (false, Some(Wrapped(IsAdminOp, fault.value)))
      else if userID !in users then (false, Some(Wrapped(IsAdminOp, Sentinel(StorageErrUserNotFound))))
      else (users[userID].isAdmin, None)
    }

    /** App: the app with this id. */
    function App(appID: int, fault: Option<Error>): (r: Result<Models.App>)
      requires Valid()
      reads this
      ensures fault.Some? ==> r == Failure(Wrapped(AppOp, fault.value))
      ensures fault.None? && appID !in apps ==> r == Failure(Wrapped(AppOp, Sentinel(StorageErrAppNotFound)))
      ensures r.Success? <==> fault.None? && appID in apps
      ensures r.Success? ==> r.value == apps[appID] && r.value.id == appID
    {
      if fault.Some? then Failure(Wrapped(AppOp, fault.value))
      else if appID !in apps then Failure(Wrapped(AppOp, Sentinel(StorageErrAppNotFound)))
      else Success(apps[appID])
    }
  }

  /** Whatever the driver reports, every storage error keeps the identity
      of its cause under the op name: an expired deadline stays a
      DeadlineExceeded, and a sentinel of the storage package appears only
      where the table lookup produced it. */
  lemma FaultsKeepTheirIdentity(s: Storage, email: string, userID: int, appID: int, fault: Error, k: Sentinel)
    requires s.Valid()
    ensures Is(s.User(email, Some(fault)).error, k) <==> Is(fault, k)
    ensures Is(s.IsAdmin(userID, Some(fault)).1.value, k) <==> Is(fault, k)
    ensures Is(s.App(appID, Some(fault)).error, k) <==> Is(fault, k)
  {
  }
}
