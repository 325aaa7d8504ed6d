/** The users side of one unit-of-work attempt (fake-iam-unit-of-work.ts:107-160). */
module UserRepository {
  import opened Wrappers
  import opened Users
  import opened RollbackStore

  /** A stored account: the map holds instances, and two of them are the same only by identity. */
  class StoredUser {
    const user: User

    constructor (user: User)
      ensures this.user == user
    {
      this.user := user;
    }
  }

  datatype SaveError = DuplicateExternalSubject | ConcurrentModification | Rejected(error: UserError)

  class UsersPort {
    const users: CommittedMap<UserId, StoredUser>
    const tracker: RollbackTrackedMap<UserId, StoredUser>

    ghost predicate Valid() { tracker.committed == users }

    constructor (users: CommittedMap<UserId, StoredUser>)
      ensures Valid() && this.users == users
      ensures fresh(tracker) && tracker.prior == map[] && tracker.written == map[]
    {
      this.users := users;
      tracker := new RollbackTrackedMap(users);
    }

    method FindByExternalSubject(sub: string) returns (found: Option<StoredUser>)
      ensures found.Some? ==> exists k :: k in users.entries && users.entries[k] == found.value && HasSubject(users.entries, k, sub)
      ensures found.None? ==> forall k :: k in users.entries ==> !HasSubject(users.entries, k, sub)
    {
      var ids := users.entries.Keys;
      while ids != {}
        invariant ids <= users.entries.Keys
        invariant forall k :: k in users.entries && k !in ids ==> !HasSubject(users.entries, k, sub)
        decreases |ids|
      {
        var id :| id in ids;
        if users.entries[id].user.externalSubject == sub { return Some(users.entries[id]); }
        ids := ids - {id};
      }
      found := None;
    }

    /**
     The subject is what must be new; a stored account under the same id would be replaced. The caller's own instance
     is stored, so that no instance is added twice is the callers' part: `register` builds a new one each time.
     */
    method Add(account: StoredUser) returns (saved: Result<StoredUser, SaveError>)
      requires Valid()
      modifies tracker, users
      ensures saved.Failure? <==> exists k :: k in old(users.entries) && HasSubject(old(users.entries), k, account.user.externalSubject)
      ensures saved.Failure? ==> saved.error == DuplicateExternalSubject && users.entries == old(users.entries)
                                 && tracker.prior == old(tracker.prior) && tracker.written == old(tracker.written)
      ensures saved.Success? ==> saved.value == account
      ensures saved.Success? ==> Saved(old(users.entries), old(tracker.prior), old(tracker.written), account)
    {
      var existing := FindByExternalSubject(account.user.externalSubject);
      if existing.Some? { return Failure(DuplicateExternalSubject); }
      tracker.Remember(account.user.id);
      tracker.Write(account.user.id, account);
      saved := Success(account);
    }

    /** Refused unless the stored version is the incoming one; stores a new instance at the next version. */
    method Update(canon: Canon, user: User) returns (saved: Result<StoredUser, SaveError>)
      requires Valid()
      modifies tracker, users
      ensures saved.Failure? ==> users.entries == old(users.entries) && tracker.written == old(tracker.written)
      ensures saved == Failure(ConcurrentModification) <==>
              !(user.id in old(users.entries) && old(users.entries)[user.id].user.version == user.version)
      ensures saved.Success? ==>
                && user.Valid(canon) && saved.value.user == user.(version := user.version + 1) && fresh(saved.value)
                && Saved(old(users.entries), old(tracker.prior), old(tracker.written), saved.value)
      ensures user.Valid(canon) ==> saved.Success? || saved == Failure(ConcurrentModification)
    {
      var entries := users.entries;
      if user.id !in entries || entries[user.id].user.version != user.version { return Failure(ConcurrentModification); }
      tracker.Remember(user.id);
      match user.(version := user.version + 1).Checked(canon)
      case Failure(error) => return Failure(Rejected(error));
      case Success(next) =>
        var stored := new StoredUser(next);
        tracker.Write(user.id, stored);
        saved := Success(stored);
    }

    /** The new instance is stored under its id, and the tracker knows what it replaced. */
    ghost predicate Saved(
      before: map<UserId, StoredUser>, prior: map<UserId, Option<StoredUser>>, written: map<UserId, StoredUser>, stored: StoredUser)
      reads tracker, users
    {
      var id := stored.user.id;
      && users.entries == before[id := stored]
      && tracker.prior == Remembered(before, prior, written, id) && tracker.written == written[id := stored]
    }
  }

  predicate HasSubject(entries: map<UserId, StoredUser>, k: UserId, sub: string)
    requires k in entries
  {
    entries[k].user.externalSubject == sub
  }
}
