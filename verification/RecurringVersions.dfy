/**
 A version number recurs after a rollback: a login that throws after its write lets a stale login overwrite a
 suspension (fake-iam-unit-of-work.ts:107-115, 135-151, 258-261).
 */
module RecurringVersions {
  import opened Wrappers
  import opened Users
  import opened RollbackStore
  import opened LoginRuns

  const Unused := UserId("")
  const Idle: Attempt<UserId> := Attempt(map[], map[], Running)

  // The account after `n` writes that keep it Active.
  function V(canon: Canon, id: UserId, claims: Claims, n: nat): User
    requires Register(canon, id, claims).Success?
  {
    Register(canon, id, claims).value.(version := n)
  }

  /** Logging in again with the claims an account was registered with changes nothing but the version. */
  lemma SameClaims(canon: Canon, id: UserId, claims: Claims, n: nat)
    requires Register(canon, id, claims).Success?
    ensures var u := V(canon, id, claims, n); u.id == id && u.externalSubject == claims.sub && u.status == Active
    ensures V(canon, id, claims, n).LogIn(canon, claims) == Success(V(canon, id, claims, n))
    ensures V(canon, id, claims, n).WithStatus(canon, Suspended) == Success(V(canon, id, claims, n).(status := Suspended))
  {
  }

  // Attempt 0 registers the account.

  function Registered(canon: Canon, id: UserId, claims: Claims): World
    requires Register(canon, id, claims).Success?
  {
    World(
      Store(map[id := 0], [LogEntry(0, id)], map[0 := Attempt(map[id := None], map[id := 0], Running)]),
      [V(canon, id, claims, 1)],
      map[0 := Saved(id, Some(claims))],
      map[id := claims.sub])
  }

  lemma Registers(canon: Canon, id: UserId, claims: Claims)
    requires Register(canon, id, claims).Success?
    ensures var run := [StartLogin(0, claims), Read(0, None), Save(0, id)];
            Possible(canon, run) && Reached(canon, run) == Registered(canon, id, claims)
  {
    var w1 := World(Store(map[], [], map[0 := Idle]), [], map[0 := LookUp(claims)], map[]);
    Continue(canon, [], StartLogin(0, claims));
    assert Reached(canon, [] + [StartLogin(0, claims)]) == w1;
    var w2 := w1.(pcs := map[0 := LoginRuns.Registering(claims)]);
    assert [] + [StartLogin(0, claims)] == [StartLogin(0, claims)];
    Continue(canon, [StartLogin(0, claims)], Read(0, None));
    assert Reached(canon, [StartLogin(0, claims)] + [Read(0, None)]) == w2;
    assert [StartLogin(0, claims)] + [Read(0, None)] == [StartLogin(0, claims), Read(0, None)];
    hide Possible, Reached;
    StoresFirst(canon, id, claims, w2);
    hide NextWorld, CanStep, Registered, Register;
    var w3 := Registered(canon, id, claims);
    Continue(canon, [StartLogin(0, claims), Read(0, None)], Save(0, id));
    assert Reached(canon, [StartLogin(0, claims), Read(0, None)] + [Save(0, id)]) == w3;
    assert [StartLogin(0, claims), Read(0, None)] + [Save(0, id)] == [StartLogin(0, claims), Read(0, None), Save(0, id)];
  }

  lemma StoresFirst(canon: Canon, id: UserId, claims: Claims, w: World)
    requires Register(canon, id, claims).Success?
    requires w == World(Store(map[], [], map[0 := Idle]), [], map[0 := LoginRuns.Registering(claims)], map[])
    ensures CanStep(w, Save(0, id)) && NextWorld(canon, w, Save(0, id)) == Registered(canon, id, claims)
  {
    assert forall k :: !HasSubject(w, k, claims.sub);
    hide HasSubject;
  }

  // Attempt 1 logs in and writes version 2; attempt 2 loads that version.

  function FirstLoaded(canon: Canon, id: UserId, claims: Claims): World
    requires Register(canon, id, claims).Success?
  {
    var w := Registered(canon, id, claims);
    w.(store := w.store.(attempts := w.store.attempts[1 := Idle]), pcs := w.pcs[1 := LoggingIn(claims, 0, false)])
  }

  function SecondSaved(canon: Canon, id: UserId, claims: Claims): World
    requires Register(canon, id, claims).Success?
  {
    var w := FirstLoaded(canon, id, claims);
    World(
      Store(map[id := 1], [LogEntry(0, id), LogEntry(1, id)],
            w.store.attempts[1 := Attempt(map[id := Some(0)], map[id := 1], Running)]),
      [V(canon, id, claims, 1), V(canon, id, claims, 2)],
      w.pcs[1 := Saved(id, Some(claims))],
      w.minted)
  }

  function LoggedIn(canon: Canon, id: UserId, claims: Claims): World
    requires Register(canon, id, claims).Success?
  {
    var w := SecondSaved(canon, id, claims);
    w.(store := w.store.(attempts := w.store.attempts[2 := Idle]), pcs := w.pcs[2 := LoggingIn(claims, 1, false)])
  }

  lemma LoadsFirst(canon: Canon, id: UserId, claims: Claims, run: seq<Step>)
    requires Register(canon, id, claims).Success? && Possible(canon, run) && Reached(canon, run) == Registered(canon, id, claims)
    ensures var longer := run + [StartLogin(1, claims)] + [Read(1, Some(0))];
            Possible(canon, longer) && Reached(canon, longer) == FirstLoaded(canon, id, claims)
  {
    SameClaims(canon, id, claims, 1);
    hide Possible, Reached, Register, User.LogIn, User.WithStatus;
    var w := Registered(canon, id, claims);
    var w1 := w.(store := w.store.(attempts := w.store.attempts[1 := Idle]), pcs := w.pcs[1 := LookUp(claims)]);
    Continue(canon, run, StartLogin(1, claims));
    assert Reached(canon, run + [StartLogin(1, claims)]) == w1;
    assert HasSubject(w1, id, claims.sub);
    assert w1.pcs[1 := LoggingIn(claims, 0, false)] == w.pcs[1 := LoggingIn(claims, 0, false)];
    Continue(canon, run + [StartLogin(1, claims)], Read(1, Some(0)));
    assert Reached(canon, run + [StartLogin(1, claims)] + [Read(1, Some(0))]) == FirstLoaded(canon, id, claims);
  }

  lemma SavesSecond(canon: Canon, id: UserId, claims: Claims)
    requires Register(canon, id, claims).Success?
    ensures var w := FirstLoaded(canon, id, claims);
            CanStep(w, Save(1, Unused)) && NextWorld(canon, w, Save(1, Unused)) == SecondSaved(canon, id, claims)
  {
    SameClaims(canon, id, claims, 1);
    hide User.LogIn, Register;
  }

  lemma LoadsSecond(canon: Canon, id: UserId, claims: Claims, run: seq<Step>)
    requires Register(canon, id, claims).Success? && Possible(canon, run) && Reached(canon, run) == SecondSaved(canon, id, claims)
    ensures var longer := run + [StartLogin(2, claims)] + [Read(2, Some(1))];
            Possible(canon, longer) && Reached(canon, longer) == LoggedIn(canon, id, claims)
  {
    SameClaims(canon, id, claims, 2);
    hide Possible, Reached, Register, User.LogIn, User.WithStatus;
    var w := SecondSaved(canon, id, claims);
    var w1 := w.(store := w.store.(attempts := w.store.attempts[2 := Idle]), pcs := w.pcs[2 := LookUp(claims)]);
    Continue(canon, run, StartLogin(2, claims));
    assert Reached(canon, run + [StartLogin(2, claims)]) == w1;
    assert HasSubject(w1, id, claims.sub);
    assert w1.pcs[2 := LoggingIn(claims, 1, false)] == w.pcs[2 := LoggingIn(claims, 1, false)];
    Continue(canon, run + [StartLogin(2, claims)], Read(2, Some(1)));
    assert Reached(canon, run + [StartLogin(2, claims)] + [Read(2, Some(1))]) == LoggedIn(canon, id, claims);
  }

  lemma LogsIn(canon: Canon, id: UserId, claims: Claims, run: seq<Step>)
    requires Register(canon, id, claims).Success? && Possible(canon, run) && Reached(canon, run) == Registered(canon, id, claims)
    ensures var longer := run + [StartLogin(1, claims)] + [Read(1, Some(0))] + [Save(1, Unused)] + [StartLogin(2, claims)] + [Read(2, Some(1))];
            Possible(canon, longer) && Reached(canon, longer) == LoggedIn(canon, id, claims)
  {
    hide Possible, Reached, Register, CanStep, NextWorld, V, Registered, FirstLoaded, SecondSaved, LoggedIn;
    LoadsFirst(canon, id, claims, run);
    SavesSecond(canon, id, claims);
    Continue(canon, run + [StartLogin(1, claims)] + [Read(1, Some(0))], Save(1, Unused));
    assert Reached(canon, run + [StartLogin(1, claims)] + [Read(1, Some(0))] + [Save(1, Unused)]) == SecondSaved(canon, id, claims);
    LoadsSecond(canon, id, claims, run + [StartLogin(1, claims)] + [Read(1, Some(0))] + [Save(1, Unused)]);
  }

  // Attempt 1 throws, and its write is undone.

  function RolledBack(canon: Canon, id: UserId, claims: Claims): World
    requires Register(canon, id, claims).Success?
  {
    var w := LoggedIn(canon, id, claims);
    World(
      Store(map[id := 0], w.store.log, w.store.attempts[1 := Attempt(map[id := Some(0)], map[id := 1], Aborted)]),
      w.users,
      w.pcs[1 := Failed][2 := LoggingIn(claims, 1, true)],
      w.minted)
  }

  lemma UndoesWrite(canon: Canon, id: UserId, claims: Claims)
    requires Register(canon, id, claims).Success?
    ensures Next(LoggedIn(canon, id, claims).store, Abort(1)) == RolledBack(canon, id, claims).store
  {
    var s := LoggedIn(canon, id, claims).store;
    var after := Next(s, Abort(1));
    forall k ensures Get(after.committed, k) == Get(map[id := 0], k) {
      assert Get(after.committed, k) == RestoredAt(s.committed, s.attempts[1].prior, s.attempts[1].written, k);
    }
    SameMaps(after.committed, map[id := 0]);
  }

  /** Only the attempt that had loaded the account notices. */
  lemma MarksThird(w: World, after: Store<UserId>, pc: Pc)
    requires w.pcs.Keys == {0, 1, 2} && w.pcs[0].Saved? && w.pcs[1] == Throwing && Marked(w, w.pcs[2], after) == pc
    ensures (map b | b in w.pcs :: Marked(w, w.pcs[b], after))[1 := Failed] == w.pcs[1 := Failed][2 := pc]
  {
  }

  lemma LoadedIsTaken(canon: Canon, id: UserId, claims: Claims, w: World)
    requires Register(canon, id, claims).Success?
    requires w.users == LoggedIn(canon, id, claims).users && w.store == LoggedIn(canon, id, claims).store
    ensures Marked(w, LoggingIn(claims, 1, false), RolledBack(canon, id, claims).store) == LoggingIn(claims, 1, true)
  {
    SameClaims(canon, id, claims, 2);
    hide Register, User.LogIn, User.WithStatus;
  }

  lemma ThrownIsRolledBack(canon: Canon, id: UserId, claims: Claims)
    requires Register(canon, id, claims).Success?
    ensures var v := LoggedIn(canon, id, claims);
            var w := v.(pcs := v.pcs[1 := Throwing]);
            CanStep(w, RollBack(1)) && NextWorld(canon, w, RollBack(1)) == RolledBack(canon, id, claims)
  {
    UndoesWrite(canon, id, claims);
    hide Register, V, Next, Marked;
    var v := LoggedIn(canon, id, claims);
    var w := v.(pcs := v.pcs[1 := Throwing]);
    var after := RolledBack(canon, id, claims).store;
    LoadedIsTaken(canon, id, claims, w);
    MarksThird(w, after, LoggingIn(claims, 1, true));
    assert w.pcs[1 := Failed] == v.pcs[1 := Failed];
  }

  lemma RollsBack(canon: Canon, id: UserId, claims: Claims, run: seq<Step>)
    requires Register(canon, id, claims).Success? && Possible(canon, run) && Reached(canon, run) == LoggedIn(canon, id, claims)
    ensures var longer := run + [Throw(1)] + [RollBack(1)];
            Possible(canon, longer) && Reached(canon, longer) == RolledBack(canon, id, claims)
  {
    hide Possible, Reached, Register, V;
    var w := LoggedIn(canon, id, claims);
    Continue(canon, run, Throw(1));
    assert Reached(canon, run + [Throw(1)]) == w.(pcs := w.pcs[1 := Throwing]);
    hide CanStep, NextWorld;
    ThrownIsRolledBack(canon, id, claims);
    Continue(canon, run + [Throw(1)], RollBack(1));
    assert Reached(canon, run + [Throw(1)] + [RollBack(1)]) == RolledBack(canon, id, claims);
  }

  // Attempt 3 suspends the account, again at version 2.

  function AccountSuspended(canon: Canon, id: UserId, claims: Claims): World
    requires Register(canon, id, claims).Success?
  {
    var w := RolledBack(canon, id, claims);
    World(
      Store(map[id := 2], w.store.log + [LogEntry(3, id)],
            w.store.attempts[3 := Attempt(map[id := Some(0)], map[id := 2], Committed)]),
      w.users + [V(canon, id, claims, 2).(status := Suspended)],
      w.pcs[3 := Responded(id, None)],
      w.minted)
  }

  lemma LoadsForSuspension(canon: Canon, id: UserId, claims: Claims, run: seq<Step>)
    requires Register(canon, id, claims).Success? && Possible(canon, run) && Reached(canon, run) == RolledBack(canon, id, claims)
    ensures var v := RolledBack(canon, id, claims);
            var longer := run + [StartStatusChange(3, id, Suspended)] + [Read(3, Some(0))];
            && Possible(canon, longer)
            && Reached(canon, longer) ==
                 v.(store := v.store.(attempts := v.store.attempts[3 := Idle]), pcs := v.pcs[3 := ChangingStatus(Suspended, 0, false)])
  {
    hide Possible, Reached, Register;
    var w := RolledBack(canon, id, claims);
    var w1 := w.(store := w.store.(attempts := w.store.attempts[3 := Idle]), pcs := w.pcs[3 := LookUpById(id, Suspended)]);
    Continue(canon, run, StartStatusChange(3, id, Suspended));
    assert Reached(canon, run + [StartStatusChange(3, id, Suspended)]) == w1;
    var w2 := w1.(pcs := w1.pcs[3 := ChangingStatus(Suspended, 0, false)]);
    Continue(canon, run + [StartStatusChange(3, id, Suspended)], Read(3, Some(0)));
    assert Reached(canon, run + [StartStatusChange(3, id, Suspended)] + [Read(3, Some(0))]) == w2;
    assert w2.pcs == w.pcs[3 := ChangingStatus(Suspended, 0, false)];
  }

  lemma Suspends(canon: Canon, id: UserId, claims: Claims, run: seq<Step>)
    requires Register(canon, id, claims).Success? && Possible(canon, run) && Reached(canon, run) == RolledBack(canon, id, claims)
    ensures var longer := run + [StartStatusChange(3, id, Suspended)] + [Read(3, Some(0))] + [Save(3, Unused)] + [Finish(3)];
            Possible(canon, longer) && Reached(canon, longer) == AccountSuspended(canon, id, claims)
  {
    hide Possible, Reached, V, Register, CanStep, NextWorld;
    LoadsForSuspension(canon, id, claims, run);
    var run2 := run + [StartStatusChange(3, id, Suspended)] + [Read(3, Some(0))];
    var w2 := Reached(canon, run2);
    var v := AccountSuspended(canon, id, claims);
    var w3 := v.(store := v.store.(attempts := v.store.attempts[3 := Attempt(map[id := Some(0)], map[id := 2], Running)]),
                 pcs := w2.pcs[3 := Saved(id, None)]);
    SavesSuspended(canon, id, claims, w2, w3);
    Continue(canon, run2, Save(3, Unused));
    assert Reached(canon, run2 + [Save(3, Unused)]) == w3;
    FinishesSuspension(canon, id, claims, w3, v);
    Continue(canon, run2 + [Save(3, Unused)], Finish(3));
    assert Reached(canon, run2 + [Save(3, Unused)] + [Finish(3)]) == v;
  }

  lemma FinishesSuspension(canon: Canon, id: UserId, claims: Claims, w: World, v: World)
    requires Register(canon, id, claims).Success? && v == AccountSuspended(canon, id, claims)
    requires w.store == v.store.(attempts := v.store.attempts[3 := Attempt(map[id := Some(0)], map[id := 2], Running)])
    requires w.users == v.users && w.minted == v.minted
    requires w.pcs == RolledBack(canon, id, claims).pcs[3 := ChangingStatus(Suspended, 0, false)][3 := Saved(id, None)]
    ensures CanStep(w, Finish(3)) && NextWorld(canon, w, Finish(3)) == v
  {
    hide Register;
    assert w.pcs[3 := Responded(id, None)] == v.pcs;
    assert w.store.attempts[3 := Attempt(map[id := Some(0)], map[id := 2], Committed)] == v.store.attempts;
  }

  lemma SavesSuspended(canon: Canon, id: UserId, claims: Claims, w: World, w': World)
    requires Register(canon, id, claims).Success?
    requires var v := RolledBack(canon, id, claims);
             w == v.(store := v.store.(attempts := v.store.attempts[3 := Idle]), pcs := v.pcs[3 := ChangingStatus(Suspended, 0, false)])
    requires w'.users == w.users + [V(canon, id, claims, 2).(status := Suspended)] && w'.minted == w.minted
    requires w'.pcs == w.pcs[3 := Saved(id, None)]
    requires w'.store == Store(map[id := 2], w.store.log + [LogEntry(3, id)],
                           w.store.attempts[3 := Attempt(map[id := Some(0)], map[id := 2], Running)])
    ensures CanStep(w, Save(3, Unused)) && NextWorld(canon, w, Save(3, Unused)) == w'
  {
    SameClaims(canon, id, claims, 1);
    hide User.WithStatus, Register, User.LogIn, CanStep, NextWorld, Next;
    var u := V(canon, id, claims, 1).(status := Suspended);
    assert VersionMatches(w, u);
    hide VersionMatches;
    SavesStatus(canon, w, 3, Suspended, 0, u);
    StoresOverFirst(w.store, id);
  }

  /** An update of a status that passes the version guard. */
  lemma SavesStatus(canon: Canon, w: World, a: AttemptId, target: Status, r: Instance, u: User)
    requires a in w.pcs && w.pcs[a] == ChangingStatus(target, r, false) && w.store.IsRunning(a) && r < |w.users|
    requires w.users[r].WithStatus(canon, target) == Success(u) && VersionMatches(w, u)
    ensures CanStep(w, Save(a, Unused))
    ensures NextWorld(canon, w, Save(a, Unused)) ==
            World(Next(w.store, Put(a, u.id)), w.users + [u.(version := u.version + 1)], w.pcs[a := Saved(u.id, None)], w.minted)
  {
    hide VersionMatches, User.WithStatus, Next;
  }

  /** Attempt 3 writes as the third instance, over the first. */
  lemma StoresOverFirst(s: Store<UserId>, id: UserId)
    requires s.committed == map[id := 0] && |s.log| == 2 && 3 in s.attempts && s.attempts[3] == Idle
    ensures Next(s, Put(3, id)) ==
            Store(map[id := 2], s.log + [LogEntry(3, id)], s.attempts[3 := Attempt(map[id := Some(0)], map[id := 2], Running)])
  {
    assert s.committed[id := 2] == map[id := 2];
  }

  /** Attempt 2 still holds the version 2 that was taken away: its update passes the version guard and reactivates the account. */
  lemma OverwritesSuspension(canon: Canon, id: UserId, claims: Claims, w: World)
    requires Register(canon, id, claims).Success? && w == AccountSuspended(canon, id, claims)
    ensures CanStep(w, Save(2, Unused))
    ensures var w' := NextWorld(canon, w, Save(2, Unused));
            w'.store.committed == map[id := 3] && w'.users == w.users + [V(canon, id, claims, 3)]
  {
    SameClaims(canon, id, claims, 2);
    hide User.LogIn, Register, User.WithStatus, CanStep, NextWorld;
    assert VersionMatches(w, V(canon, id, claims, 2));
    assert w.store.committed[id := 3] == map[id := 3];
    hide VersionMatches;
    SavesLogin(canon, w, 2, claims, 1, V(canon, id, claims, 2));
    hide Restored, Remembered;
  }

  /** A login that passes the version guard. */
  lemma SavesLogin(canon: Canon, w: World, a: AttemptId, claims: Claims, r: Instance, u: User)
    requires a in w.pcs && w.pcs[a].LoggingIn? && w.pcs[a].claims == claims && w.pcs[a].loaded == r
    requires w.store.IsRunning(a) && r < |w.users| && w.users[r].LogIn(canon, claims) == Success(u) && VersionMatches(w, u)
    ensures CanStep(w, Save(a, Unused))
    ensures NextWorld(canon, w, Save(a, Unused)) ==
            World(Next(w.store, Put(a, u.id)), w.users + [u.(version := u.version + 1)], w.pcs[a := Saved(u.id, Some(claims))], w.minted)
  {
    hide VersionMatches, User.LogIn, Next;
  }

  /** After `run` the suspension by attempt 3 has been answered, and the login of attempt 2 then makes the account Active. */
  ghost predicate UndoesSuspension(canon: Canon, run: seq<Step>, id: UserId) {
    && Possible(canon, run) && CanStep(Reached(canon, run), Save(2, Unused))
    && var w := Reached(canon, run);
    && var w' := NextWorld(canon, w, Save(2, Unused));
    && Get(w.pcs, 3) == Some(Responded(id, None)) && w.pcs[2].LoggingIn?
    && StatusOf(w, id) == Some(Suspended) && StatusOf(w', id) == Some(Active)
  }

  /** For every account there is such a run, so the promise of calm runs needs their assumption. */
  lemma LoginUndoesSuspension(canon: Canon, id: UserId, claims: Claims)
    requires Register(canon, id, claims).Success?
    ensures exists run :: UndoesSuspension(canon, run, id)
  {
    hide Possible, Reached, CanStep, NextWorld, Register, V, Registered, LoggedIn, RolledBack, AccountSuspended, UndoesSuspension;
    Registers(canon, id, claims);
    var run0 := [StartLogin(0, claims), Read(0, None), Save(0, id)];
    LogsIn(canon, id, claims, run0);
    var run1 := run0 + [StartLogin(1, claims)] + [Read(1, Some(0))] + [Save(1, Unused)] + [StartLogin(2, claims)] + [Read(2, Some(1))];
    RollsBack(canon, id, claims, run1);
    var run2 := run1 + [Throw(1)] + [RollBack(1)];
    Suspends(canon, id, claims, run2);
    var run := run2 + [StartStatusChange(3, id, Suspended)] + [Read(3, Some(0))] + [Save(3, Unused)] + [Finish(3)];
    Ends(canon, id, claims, run);
  }

  lemma Ends(canon: Canon, id: UserId, claims: Claims, run: seq<Step>)
    requires Register(canon, id, claims).Success? && Possible(canon, run) && Reached(canon, run) == AccountSuspended(canon, id, claims)
    ensures UndoesSuspension(canon, run, id)
  {
    OverwritesSuspension(canon, id, claims, Reached(canon, run));
    SameClaims(canon, id, claims, 3);
    hide Possible, Reached, NextWorld, CanStep, V, Register, User.LogIn, User.WithStatus;
    var w := AccountSuspended(canon, id, claims);
    assert |w.users| == 3 && w.users[2].status == Suspended;
    assert w.pcs[2] == LoggingIn(claims, 1, true);
  }

  ghost function StatusOf(w: World, id: UserId): Option<Status> {
    if id in w.store.committed && w.store.committed[id] < |w.users| then Some(w.users[w.store.committed[id]].status) else None
  }
}
