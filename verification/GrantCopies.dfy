/**
 The copies of a user's grants that attempts load, change and save, and the version guard that keeps a stale one out
 (user-role-grants.ts:106-148, fake-iam-unit-of-work.ts:107-115, 162-222, 235-263).
 */
module GrantCopies {
  import opened Wrappers
  import opened Users
  import opened RollbackStore
  import opened RoleGrants
  import opened GrantRuns

  // ---------------------------------------------------------------------------------------------
  // What a copy knows
  // ---------------------------------------------------------------------------------------------

  /** The copy is no newer than instance `r`, and of the same version only if it was loaded from it. */
  ghost predicate NotAhead(contents: seq<Saved>, c: Copy, r: Option<Instance>) {
    c.version <= VersionAt(contents, r) && (c.version == VersionAt(contents, r) ==> r == c.loaded)
  }

  /** What a running attempt found under a user's id before its first write there. */
  ghost function Found(w: World, b: AttemptId, u: UserId): Option<Instance>
    requires HasWritten(w, b, u)
  {
    var p := w.store.attempts[b].prior;
    if u in p then p[u] else None
  }

  /** A copy held by a running attempt is not ahead of what is stored, nor of what would be if another writer failed. */
  ghost predicate Current(w: World, c: Copy) {
    && NotAhead(w.contents, c, Get(w.store.committed, c.user))
    && (forall b :: b != c.attempt && HasWritten(w, b, c.user) ==> NotAhead(w.contents, c, Found(w, b, c.user)))
    && (c.saved ==> HasWritten(w, c.attempt, c.user) && c.version < VersionAt(w.contents, Get(w.store.committed, c.user)))
  }

  /** Until it is saved, a copy is what its facts make of the grants it was loaded with. */
  ghost predicate Derived(w: World, c: Copy) {
    && NoDuplicates(c.grants) && (forall f :: f in c.facts ==> f.user == c.user)
    && (c.loaded.Some? ==> c.loaded.value < |w.contents|) && c.version == VersionAt(w.contents, c.loaded)
    && (!c.saved ==> c.grants == ReplayFrom(GrantsAt(w.contents, c.loaded), c.facts))
  }

  ghost predicate CopyFits(w: World, h: nat)
    requires h < |w.copies|
  {
    var c := w.copies[h];
    c.attempt in w.store.attempts && Derived(w, c) && (w.store.IsRunning(c.attempt) ==> Current(w, c))
  }

  /** A running attempt has stored a later version than it found. */
  ghost predicate WriterRises(w: World, b: AttemptId, u: UserId) {
    HasWritten(w, b, u) ==> VersionAt(w.contents, Found(w, b, u)) < VersionAt(w.contents, Get(w.store.committed, u))
  }

  ghost predicate CopiesInv(w: World) {
    && (forall h :: 0 <= h < |w.copies| ==> CopyFits(w, h))
    && (forall b, u :: WriterRises(w, b, u))
  }

  ghost predicate AllInv(w: World) { StoreInv(w.store) && GrantsInv(w) && CopiesInv(w) }

  // ---------------------------------------------------------------------------------------------
  // A save that goes through
  // ---------------------------------------------------------------------------------------------

  /** The version guard lets a copy through only over the very instance it was loaded from, and only once. */
  lemma GuardMeansLoaded(w: World, h: nat, save: Save)
    requires |w.contents| == |w.store.log| && StoreInv(w.store) && Holds(w, h) && CopyFits(w, h) && !Refused(w, w.copies[h], save)
    ensures Get(w.store.committed, w.copies[h].user) == w.copies[h].loaded && !w.copies[h].saved
  {
    hide StoreInv, Derived, HasWritten;
    StoredInLog(w, w.copies[h].user);
  }

  /** No other running attempt has written there. */
  lemma GuardIsConsiderate(w: World, h: nat, save: Save)
    requires AllInv(w) && Holds(w, h) && !Refused(w, w.copies[h], save)
    ensures Considerate(w.store, Put(w.copies[h].attempt, w.copies[h].user))
  {
    var c := w.copies[h];
    assert CopyFits(w, h) && |w.contents| == |w.store.log|;
    assert forall b :: WriterRises(w, b, c.user);
    hide GrantsInv, CopiesInv;
    GuardMeansLoaded(w, h, save);
    if c.user in w.store.committed {
      var b := w.store.Writer(w.store.committed[c.user]);
      if w.store.IsRunning(b) {
        StoredByWriter(w.store, c.user);
        assert WriterRises(w, b, c.user);
      }
    }
    hide StoreInv, Derived;
  }

  lemma StoredByWriter(s: Store<UserId>, u: UserId)
    requires StoreInv(s) && u in s.committed
    ensures s.committed[u] < |s.log| && s.Writer(s.committed[u]) in s.attempts
    ensures u in s.attempts[s.Writer(s.committed[u])].written
  {
    hide Live, Exclusive;
  }

  lemma PersistLeads(w: World, h: nat, save: Save)
    requires AllInv(w) && Holds(w, h) && !Refused(w, w.copies[h], save)
    ensures var c := w.copies[h];
            && Considerate(w.store, Put(c.attempt, c.user))
            && ChangesTo(w, c.attempt, c.user, c.facts, Persisted(w, h))
            && TracksTo(w.store, c.attempt, c.user, Persisted(w, h).store)
  {
    var c := w.copies[h];
    assert CopyFits(w, h) && |w.contents| == |w.store.log|;
    hide CopiesInv, GrantsInv, StoreInv, Considerate, Persisted, ChangesTo, TracksTo, Refused, Current, Derived, Next;
    GuardIsConsiderate(w, h, save);
    GuardMeansLoaded(w, h, save);
    PutTracks(w.store, c.attempt, c.user);
    PersistedIsPut(w, h);
    LeadsFromLoaded(w, h);
  }

  lemma PersistedIsPut(w: World, h: nat)
    requires Holds(w, h)
    ensures Persisted(w, h).store == Next(w.store, Put(w.copies[h].attempt, w.copies[h].user))
    ensures Enabled(w.store, Put(w.copies[h].attempt, w.copies[h].user))
  {
    hide Next;
  }

  /** Over the instance it was loaded from, a copy leads from the stored grants to its own by its facts. */
  lemma LeadsFromLoaded(w: World, h: nat)
    requires Holds(w, h) && Derived(w, w.copies[h]) && !w.copies[h].saved
    requires Get(w.store.committed, w.copies[h].user) == w.copies[h].loaded
    ensures var c := w.copies[h]; ChangesTo(w, c.attempt, c.user, c.facts, Persisted(w, h))
  {
    StoredGrants(w, w.copies[h].user);
    hide ReplayFrom, NoDuplicates, GrantsAt, StoredAt, GrantsOf, Remembered;
  }

  // ---------------------------------------------------------------------------------------------
  // What every step keeps
  // ---------------------------------------------------------------------------------------------

  /** What a copy must meet does not depend on the other copies. */
  lemma CopiesOnly(w: World, w': World, d: Copy)
    requires w' == w.(copies := w'.copies)
    ensures Derived(w', d) <==> Derived(w, d)
    ensures Current(w', d) <==> Current(w, d)
  {
    hide NoDuplicates, ReplayFrom;
    assert forall b :: HasWritten(w', b, d.user) <==> HasWritten(w, b, d.user);
    assert forall b :: HasWritten(w, b, d.user) ==> Found(w', b, d.user) == Found(w, b, d.user);
    hide HasWritten, Found, NotAhead;
  }

  lemma RisesOnly(w: World, w': World)
    requires w' == w.(copies := w'.copies) && forall b, u :: WriterRises(w, b, u)
    ensures forall b, u :: WriterRises(w', b, u)
  {
    forall b, u ensures WriterRises(w', b, u) { assert WriterRises(w, b, u); }
  }

  lemma LoadKeepsCopies(w: World, a: AttemptId, u: UserId)
    requires AllInv(w) && CanStep(w, Load(a, u))
    ensures CopiesInv(NextWorld(w, Load(a, u)))
  {
    var w' := w.(copies := w.copies + [Loaded(w, a, u)]);
    assert NextWorld(w, Load(a, u)) == w' && w.store.IsRunning(a);
    StoredInLog(w, u);
    LoadedFits(w, a, u);
    hide StoreInv, GrantsInv, HasWritten, CanStep, NextWorld, Derived, Current, WriterRises;
    RisesOnly(w, w');
    forall g | 0 <= g < |w'.copies| ensures CopyFits(w', g) {
      CopiesOnly(w, w', w'.copies[g]);
      if g < |w.copies| { assert CopyFits(w, g); }
    }
  }

  lemma LoadedFits(w: World, a: AttemptId, u: UserId)
    requires GrantsInv(w) && CanStep(w, Load(a, u)) && (u in w.store.committed ==> w.store.committed[u] < |w.contents|)
    ensures Derived(w, Loaded(w, a, u)) && Current(w, Loaded(w, a, u))
  {
    hide HasWritten, WriterFits, RestFits;
  }

  lemma IssueKeepsCopies(w: World, h: nat, command: Command)
    requires CopiesInv(w) && CanStep(w, Issue(h, command))
    ensures CopiesInv(NextWorld(w, Issue(h, command)))
  {
    var w' := NextWorld(w, Issue(h, command));
    assert CopyFits(w, h);
    IssuedFits(w, w.copies[h], command);
    hide Derived, Issued, Current, WriterRises;
    RisesOnly(w, w');
    forall g | 0 <= g < |w'.copies| ensures CopyFits(w', g) {
      CopiesOnly(w, w', w'.copies[g]);
      assert CopyFits(w, g);
    }
  }

  lemma IssuedFits(w: World, c: Copy, command: Command)
    requires Derived(w, c)
    ensures Derived(w, Issued(c, command)) && Issued(c, command).attempt == c.attempt
    ensures Current(w, c) ==> Current(w, Issued(c, command))
  {
    if Changes(c.grants, command) {
      ChangeKeepsDuplicateFree(c.user, c.grants, command);
      ReplayOneMore(GrantsAt(w.contents, c.loaded), c.facts, FactOf(c.user, command));
    }
    hide NoDuplicates, ReplayFrom, Applied, GrantsAt, Changes;
  }

  /** The store after a save, as far as copies are concerned. */
  lemma PersistedStore(w: World, h: nat, u: UserId)
    requires StoreInv(w.store) && |w.contents| == |w.store.log| && Holds(w, h)
    requires TracksTo(w.store, w.copies[h].attempt, w.copies[h].user, Persisted(w, h).store)
    ensures var c, w' := w.copies[h], Persisted(w, h);
            && (u != c.user ==> Get(w'.store.committed, u) == Get(w.store.committed, u))
            && (u == c.user ==> Get(w'.store.committed, u) == Some(|w.contents|))
            && VersionAt(w'.contents, Some(|w.contents|)) == VersionAt(w.contents, Get(w.store.committed, c.user)) + 1
            && (forall r: Option<Instance> :: (r.Some? ==> r.value < |w.contents|) ==>
                  VersionAt(w'.contents, r) == VersionAt(w.contents, r) && GrantsAt(w'.contents, r) == GrantsAt(w.contents, r))
  {
    PutEffect(w.store, w.copies[h].attempt, w.copies[h].user);
    hide StoreInv, Next, TracksTo;
  }

  lemma PersistedFound(w: World, h: nat, b: AttemptId, u: UserId)
    requires StoreInv(w.store) && |w.contents| == |w.store.log| && Holds(w, h)
    requires TracksTo(w.store, w.copies[h].attempt, w.copies[h].user, Persisted(w, h).store)
    requires HasWritten(Persisted(w, h), b, u)
    ensures var c, w' := w.copies[h], Persisted(w, h);
            && (HasWritten(w, b, u) || (b == c.attempt && u == c.user))
            && Found(w', b, u) == (if HasWritten(w, b, u) then Found(w, b, u) else Get(w.store.committed, u))
            && (Found(w', b, u).Some? ==> Found(w', b, u).value < |w.contents|)
  {
    StoredInLog(w, u);
    hide StoreInv, Next;
  }

  lemma PersistRises(w: World, h: nat, b: AttemptId, u: UserId)
    requires StoreInv(w.store) && |w.contents| == |w.store.log| && Holds(w, h) && WriterRises(w, b, u)
    requires var c := w.copies[h];
             Considerate(w.store, Put(c.attempt, c.user)) && TracksTo(w.store, c.attempt, c.user, Persisted(w, h).store)
    ensures WriterRises(Persisted(w, h), b, u)
  {
    var c, w' := w.copies[h], Persisted(w, h);
    if HasWritten(w', b, u) {
      StoredInLog(w, u);
      PersistedStore(w, h, u);
      PersistedFound(w, h, b, u);
      hide StoreInv, Persisted, Considerate, VersionAt, Found, HasWritten, TracksTo;
    }
  }

  lemma PersistKeepsCurrent(w: World, h: nat, d: Copy)
    requires StoreInv(w.store) && |w.contents| == |w.store.log| && Holds(w, h) && Current(w, d) && w.store.IsRunning(d.attempt)
    requires TracksTo(w.store, w.copies[h].attempt, w.copies[h].user, Persisted(w, h).store)
    ensures Current(Persisted(w, h), d)
  {
    hide StoreInv, Persisted, VersionAt, Found, TracksTo, HasWritten;
    var c, w' := w.copies[h], Persisted(w, h);
    StoredInLog(w, d.user);
    PersistedStore(w, h, d.user);
    TrackedWritten(w, c.attempt, c.user, w', d.attempt, d.user);
    forall b | b != d.attempt && HasWritten(w', b, d.user) ensures NotAhead(w'.contents, d, Found(w', b, d.user)) {
      PersistedFound(w, h, b, d.user);
    }
  }

  lemma PersistKeepsDerived(w: World, h: nat, d: Copy)
    requires StoreInv(w.store) && |w.contents| == |w.store.log| && Holds(w, h) && Derived(w, d)
    requires TracksTo(w.store, w.copies[h].attempt, w.copies[h].user, Persisted(w, h).store)
    ensures Derived(Persisted(w, h), d)
  {
    PersistedStore(w, h, d.user);
    assert |Persisted(w, h).contents| == |w.contents| + 1;
    hide StoreInv, Persisted, NoDuplicates, ReplayFrom, TracksTo, GrantsAt, VersionAt;
  }

  /** The saved copy is behind what it stored. */
  lemma PersistSaves(w: World, h: nat)
    requires StoreInv(w.store) && |w.contents| == |w.store.log| && Holds(w, h) && Current(w, w.copies[h])
    requires TracksTo(w.store, w.copies[h].attempt, w.copies[h].user, Persisted(w, h).store)
    ensures var c, w' := w.copies[h], Persisted(w, h);
            HasWritten(w', c.attempt, c.user) && c.version < VersionAt(w'.contents, Get(w'.store.committed, c.user))
  {
    var c := w.copies[h];
    PersistedStore(w, h, c.user);
    TrackedWritten(w, c.attempt, c.user, Persisted(w, h), c.attempt, c.user);
    hide StoreInv, Persisted, VersionAt, TracksTo, HasWritten;
  }

  lemma PersistKeepsCopies(w: World, h: nat, save: Save)
    requires AllInv(w) && Holds(w, h) && !Refused(w, w.copies[h], save)
    ensures CopiesInv(Persisted(w, h))
  {
    var c, w' := w.copies[h], Persisted(w, h);
    assert |w.contents| == |w.store.log|;
    PersistLeads(w, h, save);
    hide StoreInv, GrantsInv, Considerate, ChangesTo, TracksTo, WriterRises, CopyFits, Refused;
    forall b, u ensures WriterRises(w', b, u) {
      assert WriterRises(w, b, u);
      PersistRises(w, h, b, u);
    }
    forall g | 0 <= g < |w'.copies| ensures CopyFits(w', g) { PersistKeepsCopy(w, h, g); }
  }

  lemma PersistKeepsCopy(w: World, h: nat, g: nat)
    requires StoreInv(w.store) && |w.contents| == |w.store.log| && Holds(w, h) && CopyFits(w, h) && g < |w.copies| && CopyFits(w, g)
    requires TracksTo(w.store, w.copies[h].attempt, w.copies[h].user, Persisted(w, h).store)
    ensures CopyFits(Persisted(w, h), g)
  {
    var c, d, w' := w.copies[h], w.copies[g], Persisted(w, h);
    assert w'.copies == w.copies[h := c.(facts := [], saved := true)];
    assert w'.store.attempts.Keys == w.store.attempts.Keys && (w'.store.IsRunning(d.attempt) <==> w.store.IsRunning(d.attempt));
    hide StoreInv, Persisted, TracksTo, Derived, Current;
    PersistKeepsDerived(w, h, d);
    if w.store.IsRunning(d.attempt) { PersistKeepsCurrent(w, h, d); }
    if g == h {
      PersistSaves(w, h);
      SavedFits(w', c);
    }
  }

  lemma SavedFits(w: World, c: Copy)
    requires Derived(w, c) && Current(w, c) && HasWritten(w, c.attempt, c.user)
    requires c.version < VersionAt(w.contents, Get(w.store.committed, c.user))
    ensures Derived(w, c.(facts := [], saved := true)) && Current(w, c.(facts := [], saved := true))
  {
    hide HasWritten, VersionAt, Found, NoDuplicates;
  }

  /** A step that starts or ends an attempt, as far as the others' copies are concerned. */
  ghost predicate Ends(w: World, w': World, a: AttemptId, b: AttemptId, u: UserId) {
    && (w'.store.IsRunning(b) <==> w.store.IsRunning(b) && b != a)
    && (HasWritten(w', b, u) <==> HasWritten(w, b, u) && b != a)
    && (HasWritten(w', b, u) && HasWritten(w, b, u) ==> Found(w', b, u) == Found(w, b, u))
  }

  /** Under each id attempt `a` leaves what is there, or puts back what it found. */
  ghost predicate Leaves(w: World, w': World, a: AttemptId, u: UserId) {
    || Get(w'.store.committed, u) == Get(w.store.committed, u)
    || (HasWritten(w, a, u) && Get(w'.store.committed, u) == Found(w, a, u))
  }

  lemma EndKeepsCurrent(w: World, w': World, a: AttemptId, d: Copy)
    requires StoreInv(w.store) && w'.contents == w.contents && w.store.IsRunning(a) && Current(w, d)
    requires w.store.IsRunning(d.attempt) && d.attempt != a && Leaves(w, w', a, d.user)
    requires forall b :: Ends(w, w', a, b, d.user)
    ensures Current(w', d)
  {
    forall b | b != d.attempt && HasWritten(w', b, d.user) ensures NotAhead(w'.contents, d, Found(w', b, d.user)) {
      assert Ends(w, w', a, b, d.user);
    }
    assert Ends(w, w', a, d.attempt, d.user);
    if HasWritten(w, d.attempt, d.user) && HasWritten(w, a, d.user) { OneWriter(w.store, d.attempt, a, d.user); }
    hide StoreInv, Found, VersionAt, HasWritten;
  }

  lemma EndRises(w: World, w': World, a: AttemptId, b: AttemptId, u: UserId)
    requires StoreInv(w.store) && w'.contents == w.contents && w.store.IsRunning(a) && WriterRises(w, b, u)
    requires Leaves(w, w', a, u) && Ends(w, w', a, b, u)
    ensures WriterRises(w', b, u)
  {
    if HasWritten(w, b, u) && HasWritten(w, a, u) { OneWriter(w.store, b, a, u); }
    hide StoreInv, Found, VersionAt, HasWritten;
  }

  lemma EndKeepsCopies(w: World, w': World, a: AttemptId)
    requires AllInv(w) && w.store.IsRunning(a) && w'.contents == w.contents && w'.copies == w.copies
    requires w.store.attempts.Keys <= w'.store.attempts.Keys
    requires forall u :: Leaves(w, w', a, u)
    requires forall b, u :: Ends(w, w', a, b, u)
    ensures CopiesInv(w')
  {
    hide StoreInv, GrantsInv, Leaves, WriterRises;
    forall b, u ensures WriterRises(w', b, u) {
      assert WriterRises(w, b, u) && Ends(w, w', a, b, u);
      hide Ends;
      EndRises(w, w', a, b, u);
    }
    forall g | 0 <= g < |w'.copies| ensures CopyFits(w', g) {
      var d := w.copies[g];
      assert CopyFits(w, g) && Ends(w, w', a, d.attempt, d.user);
      assert Derived(w', d) by { hide NoDuplicates, ReplayFrom, Current; }
      if w'.store.IsRunning(d.attempt) {
        hide Derived, Current;
        EndKeepsCurrent(w, w', a, d);
      }
    }
  }

  lemma SucceedEnds(w: World, a: AttemptId, b: AttemptId, u: UserId)
    requires CanStep(w, Succeed(a))
    ensures Ends(w, NextWorld(w, Succeed(a)), a, b, u)
  {
    hide Stamped, Restored, Remembered;
  }

  lemma FailEnds(w: World, a: AttemptId, b: AttemptId, u: UserId)
    requires CanStep(w, Fail(a))
    ensures Ends(w, NextWorld(w, Fail(a)), a, b, u)
  {
    hide NextWorld, CanStep, Next;
    FailShape(w, a);
    FailKeepsRest(w.store, a);
  }

  lemma FailLeaves(w: World, a: AttemptId, u: UserId)
    requires StoreInv(w.store) && CanStep(w, Fail(a))
    ensures Leaves(w, NextWorld(w, Fail(a)), a, u)
  {
    FailEffect(w.store, a, u);
    hide StoreInv, Next;
  }

  lemma SucceedKeepsCopies(w: World, a: AttemptId)
    requires AllInv(w) && CanStep(w, Succeed(a))
    ensures CopiesInv(NextWorld(w, Succeed(a)))
  {
    var w' := NextWorld(w, Succeed(a));
    assert w'.contents == w.contents && w'.copies == w.copies && w'.store.committed == w.store.committed && w.store.IsRunning(a);
    assert w'.store.attempts.Keys == w.store.attempts.Keys;
    hide NextWorld, CanStep, AllInv, Ends, HasWritten;
    forall b, u ensures Ends(w, w', a, b, u) { SucceedEnds(w, a, b, u); }
    EndKeepsCopies(w, w', a);
  }

  lemma FailKeepsCopies(w: World, a: AttemptId)
    requires AllInv(w) && CanStep(w, Fail(a))
    ensures CopiesInv(NextWorld(w, Fail(a)))
  {
    hide NextWorld, CanStep, Ends, Leaves, StoreInv, GrantsInv, CopiesInv, Next;
    var w' := NextWorld(w, Fail(a));
    FailShape(w, a);
    FailKeepsRest(w.store, a);
    forall b, u ensures Ends(w, w', a, b, u) { FailEnds(w, a, b, u); }
    forall u ensures Leaves(w, w', a, u) { FailLeaves(w, a, u); }
    EndKeepsCopies(w, w', a);
  }

  lemma StartTracks(w: World, a: AttemptId, b: AttemptId, u: UserId)
    requires CanStep(w, Start(a))
    ensures var w' := NextWorld(w, Start(a));
            && (b in w.store.attempts ==> b != a && (w'.store.IsRunning(b) <==> w.store.IsRunning(b)))
            && (HasWritten(w', b, u) <==> HasWritten(w, b, u))
            && (HasWritten(w', b, u) ==> Found(w', b, u) == Found(w, b, u))
  {
    hide Restored, Remembered;
  }

  lemma StartKeepsCurrent(w: World, a: AttemptId, d: Copy)
    requires CanStep(w, Start(a)) && Current(w, d)
    ensures Current(NextWorld(w, Start(a)), d)
  {
    var w' := NextWorld(w, Start(a));
    assert w'.contents == w.contents && w'.store.committed == w.store.committed;
    hide NextWorld, CanStep, Found, HasWritten, VersionAt;
    forall b ensures HasWritten(w', b, d.user) <==> HasWritten(w, b, d.user) { StartTracks(w, a, b, d.user); }
    forall b | HasWritten(w', b, d.user) ensures Found(w', b, d.user) == Found(w, b, d.user) { StartTracks(w, a, b, d.user); }
  }

  lemma StartKeepsCopies(w: World, a: AttemptId)
    requires CopiesInv(w) && CanStep(w, Start(a))
    ensures CopiesInv(NextWorld(w, Start(a)))
  {
    var w' := NextWorld(w, Start(a));
    assert w'.contents == w.contents && w'.copies == w.copies && w'.store.committed == w.store.committed;
    assert w.store.attempts.Keys <= w'.store.attempts.Keys;
    hide NextWorld, CanStep, Found, HasWritten, VersionAt;
    forall b, u ensures WriterRises(w', b, u) {
      assert WriterRises(w, b, u);
      StartTracks(w, a, b, u);
    }
    forall g | 0 <= g < |w'.copies| ensures CopyFits(w', g) {
      var d := w.copies[g];
      assert CopyFits(w, g);
      assert Derived(w', d) by { hide NoDuplicates, ReplayFrom, Current; }
      StartTracks(w, a, d.attempt, d.user);
      hide Derived, Current;
      if w.store.IsRunning(d.attempt) { StartKeepsCurrent(w, a, d); }
    }
  }

  // ---------------------------------------------------------------------------------------------
  // Whole runs
  // ---------------------------------------------------------------------------------------------

  lemma PersistKeeps(w: World, h: nat, save: Save)
    requires AllInv(w) && CanStep(w, Persist(h, save))
    ensures AllInv(NextWorld(w, Persist(h, save)))
  {
    hide StoreInv, GrantsInv, CopiesInv, Refused, Persisted;
    if !Refused(w, w.copies[h], save) {
      var c := w.copies[h];
      PersistLeads(w, h, save);
      PersistKeepsCopies(w, h, save);
      PersistedIsPut(w, h);
      hide Considerate, ChangesTo, TracksTo, Next;
      ChangeIsKept(w, c.attempt, c.user, c.facts, Persisted(w, h));
      StoreInvNext(w.store, Put(c.attempt, c.user));
    }
  }

  lemma AllInvNext(w: World, e: Step)
    requires AllInv(w) && CanStep(w, e)
    ensures AllInv(NextWorld(w, e))
  {
    hide StoreInv, GrantsInv, CopiesInv, Next, Refused, Persisted, HasWritten;
    match e
    case Start(a) => StoreInvNext(w.store, Begin(a)); StartKeeps(w, a); StartKeepsCopies(w, a);
    case Load(a, u) => CopiesAside(w, NextWorld(w, e)); LoadKeepsCopies(w, a, u);
    case Issue(h, command) => CopiesAside(w, NextWorld(w, e)); IssueKeepsCopies(w, h, command);
    case Persist(h, save) => PersistKeeps(w, h, save);
    case Succeed(a) => StoreInvNext(w.store, Commit(a)); SucceedKeeps(w, a); SucceedKeepsCopies(w, a);
    case Fail(a) => StoreInvNext(w.store, Abort(a)); FailKeeps(w, a); FailKeepsCopies(w, a);
  }

  lemma {:induction false} AllInvReached(run: seq<Step>)
    requires Possible(run)
    ensures AllInv(Reached(run))
    decreases |run|
  {
    if run == [] {
      StartsFit();
    } else {
      var n := |run| - 1;
      AllInvReached(run[..n]);
      hide AllInv, CanStep, NextWorld;
      AllInvNext(Reached(run[..n]), run[n]);
    }
  }

  /**
   In every interleaving that does not read another running attempt's write: a copy is saved only over the very
   instance it was loaded from and only once, so a stale save is refused and no grant or revoke is lost.
   */
  lemma SaveReplacesLoaded(run: seq<Step>, h: nat, save: Save)
    requires Possible(run) && CanStep(Reached(run), Persist(h, save)) && !Refused(Reached(run), Reached(run).copies[h], save)
    ensures var w := Reached(run);
            var c := w.copies[h];
            && Get(w.store.committed, c.user) == c.loaded && !c.saved
            && ChangesTo(w, c.attempt, c.user, c.facts, NextWorld(w, Persist(h, save)))
  {
    AllInvReached(run);
    var w := Reached(run);
    hide Possible, Reached, Refused, ChangesTo, Persisted, TracksTo, Considerate;
    PersistLeads(w, h, save);
    assert CopyFits(w, h) && |w.contents| == |w.store.log|;
    hide CopiesInv, GrantsInv, StoreInv, CopyFits;
    GuardMeansLoaded(w, h, save);
  }

  /**
   In the same runs a root with no change in flight is exactly what replaying the recorded events rebuilds, order
   included, without duplicates; and every recorded event comes from an attempt that succeeded.
   */
  lemma RecordedEventsRebuildGrants(run: seq<Step>, user: UserId)
    requires Possible(run) && forall a :: !HasWritten(Reached(run), a, user)
    ensures var w := Reached(run);
            && GrantsOf(StoredAt(w, user)) == ReplayFrom([], About(FactsIn(w.recorded), user))
            && NoDuplicates(GrantsOf(StoredAt(w, user)))
            && forall i :: 0 <= i < |w.recorded| ==> Finished(w.store, w.recorded[i].attempt)
  {
    AllInvReached(run);
    var w := Reached(run);
    hide Possible, Reached, WriterFits, HasWritten, ReplayFrom, About, FactsIn, StoreInv, CopiesInv;
    assert RestFits(w, user);
  }

  /** What a save that goes through leaves. */
  lemma PersistedShape(w: World, h: nat)
    requires StoreInv(w.store) && |w.contents| == |w.store.log| && Holds(w, h)
    ensures var c, w' := w.copies[h], Persisted(w, h);
            && StoredAt(w', c.user) == Some(Saved(VersionAt(w.contents, Get(w.store.committed, c.user)) + 1, c.grants))
            && PendingOf(w', c.attempt) == PendingOf(w, c.attempt) + c.facts
            && w'.copies == w.copies[h := c.(facts := [], saved := true)] && w'.recorded == w.recorded
            && |w'.contents| == |w.contents| + 1 && w'.contents[..|w.contents|] == w.contents
  {
    var c := w.copies[h];
    PutEffect(w.store, c.attempt, c.user);
    hide StoreInv, Next, VersionAt;
  }

  /** When the version guard lets a save through. */
  lemma RefusedExactly(w: World, h: nat, save: Save)
    requires StoreInv(w.store) && |w.contents| == |w.store.log| && Holds(w, h) && CopyFits(w, h)
    ensures var stored := Get(w.store.committed, w.copies[h].user);
            !Refused(w, w.copies[h], save) <==>
            if save.Add? then stored.None? else stored.Some? && stored == w.copies[h].loaded
  {
    hide StoreInv, NoDuplicates, ReplayFrom, GrantsAt, HasWritten, Current;
    StoredInLog(w, w.copies[h].user);
    if !Refused(w, w.copies[h], save) { GuardMeansLoaded(w, h, save); }
  }

  /** A save under the guard: `add` over no stored root, `update` over the one the copy was loaded from. */
  ghost predicate OverLoaded(w: World, c: Copy, save: Save) {
    var stored := Get(w.store.committed, c.user);
    if save.Add? then stored.None? else stored.Some? && stored == c.loaded
  }

  /** The copy's grants are stored at the next version, and its facts wait for the attempt. */
  ghost predicate SavedAs(w: World, h: nat, w': World)
    requires h < |w.copies|
  {
    var c := w.copies[h];
    && StoredAt(w', c.user) == Some(Saved(VersionAt(w.contents, Get(w.store.committed, c.user)) + 1, c.grants))
    && PendingOf(w', c.attempt) == PendingOf(w, c.attempt) + c.facts
    && w'.copies == w.copies[h := c.(facts := [], saved := true)] && w'.recorded == w.recorded
  }

  lemma InvParts(w: World, h: nat)
    requires AllInv(w) && Holds(w, h)
    ensures StoreInv(w.store) && |w.contents| == |w.store.log| && CopyFits(w, h)
  {
    hide StoreInv, WriterFits, RestFits, CopyFits, WriterRises;
  }

  lemma SaveExactly(w: World, h: nat, save: Save)
    requires AllInv(w) && CanStep(w, Persist(h, save))
    ensures var w' := NextWorld(w, Persist(h, save));
            if OverLoaded(w, w.copies[h], save) then SavedAs(w, h, w') else w' == w
  {
    hide AllInv, StoreInv, CopyFits, Refused, Persisted, StoredAt, PendingOf, VersionAt;
    InvParts(w, h);
    RefusedExactly(w, h, save);
    PersistedShape(w, h);
  }

  /** In the same runs a save goes through exactly then, and does exactly that; otherwise it changes nothing. */
  lemma SavesExactly(run: seq<Step>, h: nat, save: Save)
    requires Possible(run) && CanStep(Reached(run), Persist(h, save))
    ensures var w := Reached(run);
            var w' := NextWorld(w, Persist(h, save));
            if OverLoaded(w, w.copies[h], save) then SavedAs(w, h, w') else w' == w
  {
    hide Possible, AllInv, NextWorld, OverLoaded, SavedAs;
    AllInvReached(run);
    SaveExactly(Reached(run), h, save);
  }

  /** The events an attempt leaves are exactly the facts of its saves, and only when it succeeds. */
  lemma SuccessRecords(w: World, a: AttemptId)
    requires CanStep(w, Succeed(a))
    ensures FactsIn(NextWorld(w, Succeed(a)).recorded) == FactsIn(w.recorded) + PendingOf(w, a)
  {
    RecordedConcat(w.recorded, a, PendingOf(w, a));
    hide FactsIn, Stamped, Next;
  }

  /** Event `i` is about the user and the grant. */
  ghost predicate TellsOf(w: World, i: int, user: UserId, g: RoleGrant) {
    0 <= i < |w.recorded| && w.recorded[i].fact.user == user && IsAbout(w.recorded[i].fact, g)
  }

  /** In the same runs a user holds a grant exactly when the last recorded event about the two is a RoleGranted. */
  lemma LastEventDecides(run: seq<Step>, user: UserId, g: RoleGrant)
    requires Possible(run) && forall a :: !HasWritten(Reached(run), a, user)
    ensures var w := Reached(run);
            g in GrantsOf(StoredAt(w, user)) <==>
            exists i :: TellsOf(w, i, user, g) && w.recorded[i].fact.RoleGranted? && forall j :: TellsOf(w, j, user, g) ==> j <= i
  {
    var w := Reached(run);
    RecordedEventsRebuildGrants(run, user);
    var facts := FactsIn(w.recorded);
    ReplayHolds([], About(facts, user), g);
    AboutHolds(facts, user, g);
    hide Possible, Reached, HasWritten, ReplayFrom, About, StoredAt, HeldAfter, IsAbout;
    assert forall i :: 0 <= i < |facts| ==> facts[i] == w.recorded[i].fact;
    if i :| TellsOf(w, i, user, g) && w.recorded[i].fact.RoleGranted? && forall j :: TellsOf(w, j, user, g) ==> j <= i {
      assert Decides(facts, i, user, g) by {
        forall j | i < j < |facts| ensures !(facts[j].user == user && IsAbout(facts[j], g)) {
          assert !TellsOf(w, j, user, g);
        }
      }
    }
    if i :| Decides(facts, i, user, g) {
      forall j | TellsOf(w, j, user, g) ensures j <= i { assert facts[j] == w.recorded[j].fact; }
      assert TellsOf(w, i, user, g);
    }
  }

  // ---------------------------------------------------------------------------------------------
  // An undisturbed attempt
  // ---------------------------------------------------------------------------------------------

  /** The world once a new attempt has loaded a root and issued one command on its copy. */
  ghost function Commanded(w: World, a: AttemptId, u: UserId, command: Command): World
    requires CanStep(w, Start(a))
  {
    var started := w.(store := Next(w.store, Begin(a)), pending := w.pending[a := []]);
    started.(copies := w.copies + [Issued(Loaded(w, a, u), command)])
  }

  lemma StartsAndLoads(run: seq<Step>, w: World, a: AttemptId, u: UserId, command: Command)
    requires Possible(run) && w == Reached(run) && CanStep(w, Start(a)) && forall b :: !HasWritten(w, b, u)
    ensures var longer := run + [Start(a)] + [Load(a, u)] + [Issue(|w.copies|, command)];
            Possible(longer) && Reached(longer) == Commanded(w, a, u, command)
  {
    var w1 := NextWorld(w, Start(a));
    var w2 := w1.(copies := w1.copies + [Loaded(w, a, u)]);
    assert w1.copies == w.copies && w1.contents == w.contents && w1.store.committed == w.store.committed && w1.store.IsRunning(a);
    forall b ensures !HasWritten(w1, b, u) { StartTracks(w, a, b, u); }
    assert CanStep(w1, Load(a, u)) && NextWorld(w1, Load(a, u)) == w2;
    assert CanStep(w2, Issue(|w.copies|, command)) && NextWorld(w2, Issue(|w.copies|, command)) == Commanded(w, a, u, command);
    hide Possible, Reached, CanStep, NextWorld, Commanded, HasWritten;
    Continue(run, Start(a));
    Continue(run + [Start(a)], Load(a, u));
    Continue(run + [Start(a)] + [Load(a, u)], Issue(|w.copies|, command));
  }

  /** The steps of an attempt that grants a role on a fresh copy, the `h`-th, and saves it. */
  function GrantSteps(a: AttemptId, u: UserId, h: nat, g: RoleGrant, save: Save): seq<Step> {
    [Start(a), Load(a, u), Issue(h, Grant(g)), Persist(h, save)]
  }

  lemma GrantIsSaved(run: seq<Step>, w: World, a: AttemptId, u: UserId, g: RoleGrant, save: Save)
    requires Possible(run) && w == Reached(run) && CanStep(w, Start(a)) && forall b :: !HasWritten(w, b, u)
    requires g !in GrantsOf(StoredAt(w, u)) && save == (if StoredAt(w, u).Some? then Update else Add)
    ensures var saved := run + GrantSteps(a, u, |w.copies|, g, save);
            && Possible(saved) && AllInv(Reached(saved))
            && SavedBy(w, Reached(saved), a, u, GrantsOf(StoredAt(w, u)) + [g], [RoleGranted(u, g.role, g.scope.Club())])
  {
    var h := |w.copies|;
    hide Possible, Reached, AllInv, Commanded, CanStep, NextWorld, SavedBy, HasWritten, StoredAt;
    StartsAndLoads(run, w, a, u, Grant(g));
    var longer := run + [Start(a)] + [Load(a, u)] + [Issue(h, Grant(g))];
    AllInvReached(run);
    AllInvReached(longer);
    SavesCommanded(w, a, u, g, save);
    Continue(longer, Persist(h, save));
    AllInvReached(longer + [Persist(h, save)]);
    assert longer + [Persist(h, save)] == run + GrantSteps(a, u, h, g, save);
  }

  /**
   An undisturbed attempt that grants a role the user does not hold and saves it: on success the grant goes last and its
   event is recorded last.
   */
  lemma UndisturbedGrant(run: seq<Step>, w: World, a: AttemptId, u: UserId, g: RoleGrant, save: Save)
    requires Possible(run) && w == Reached(run) && CanStep(w, Start(a)) && forall b :: !HasWritten(w, b, u)
    requires g !in GrantsOf(StoredAt(w, u)) && save == (if StoredAt(w, u).Some? then Update else Add)
    ensures var longer := run + GrantSteps(a, u, |w.copies|, g, save) + [Succeed(a)];
            && Possible(longer)
            && GrantsOf(StoredAt(Reached(longer), u)) == GrantsOf(StoredAt(w, u)) + [g]
            && Reached(longer).recorded == w.recorded + [Recorded(a, RoleGranted(u, g.role, g.scope.Club()))]
  {
    var saved := run + GrantSteps(a, u, |w.copies|, g, save);
    GrantIsSaved(run, w, a, u, g, save);
    hide Possible, Reached, AllInv, CanStep, NextWorld, HasWritten, StoredAt, GrantsOf, Found, PendingOf, GrantSteps;
    var w4 := Reached(saved);
    SucceedsAfterSave(w4, a, u);
    assert Stamped(a, PendingOf(w4, a)) == [Recorded(a, RoleGranted(u, g.role, g.scope.Club()))];
    hide SavedBy, Stamped;
    Continue(saved, Succeed(a));
  }

  /** The same attempt, failing after its save: the stored root and the recorded events are as before. */
  lemma UndisturbedFailure(run: seq<Step>, w: World, a: AttemptId, u: UserId, g: RoleGrant, save: Save)
    requires Possible(run) && w == Reached(run) && CanStep(w, Start(a)) && forall b :: !HasWritten(w, b, u)
    requires g !in GrantsOf(StoredAt(w, u)) && save == (if StoredAt(w, u).Some? then Update else Add)
    ensures var longer := run + GrantSteps(a, u, |w.copies|, g, save) + [Fail(a)];
            && Possible(longer)
            && GrantsOf(StoredAt(Reached(longer), u)) == GrantsOf(StoredAt(w, u)) && Reached(longer).recorded == w.recorded
  {
    var saved := run + GrantSteps(a, u, |w.copies|, g, save);
    GrantIsSaved(run, w, a, u, g, save);
    hide Possible, Reached, AllInv, CanStep, NextWorld, HasWritten, StoredAt, GrantsOf, Found, PendingOf, GrantSteps;
    FailsAfterSave(w, Reached(saved), a, u);
    Continue(saved, Fail(a));
  }

  lemma SavesCommanded(w: World, a: AttemptId, u: UserId, g: RoleGrant, save: Save)
    requires AllInv(w) && CanStep(w, Start(a)) && AllInv(Commanded(w, a, u, Grant(g)))
    requires g !in GrantsOf(StoredAt(w, u)) && save == (if StoredAt(w, u).Some? then Update else Add)
    ensures var w3 := Commanded(w, a, u, Grant(g));
            && CanStep(w3, Persist(|w.copies|, save))
            && var w4 := NextWorld(w3, Persist(|w.copies|, save));
            && SavedBy(w, w4, a, u, GrantsOf(StoredAt(w, u)) + [g], [RoleGranted(u, g.role, g.scope.Club())])
  {
    var w3, h := Commanded(w, a, u, Grant(g)), |w.copies|;
    assert |w.contents| == |w.store.log| && |w3.contents| == |w3.store.log| && StoreInv(w3.store);
    CommandedCopy(w, a, u, g);
    CommandedRest(w, a, u, Grant(g));
    hide AllInv, Commanded, StoreInv, StoredAt, GrantsOf, VersionAt, Persisted, Next, GrantsAt;
    NotRefused(w, w3, a, u, save);
    PersistedShape(w3, h);
    PersistedWrites(w3, h);
    StoredGrants(Persisted(w3, h), u);
    StoredInBounds(w, u);
    hide Refused, HasWritten, Found;
  }

  lemma StoredInBounds(w: World, u: UserId)
    requires AllInv(w)
    ensures u in w.store.committed ==> w.store.committed[u] < |w.contents|
  {
    StoredInLog(w, u);
    hide StoreInv;
  }

  lemma CommandedRest(w: World, a: AttemptId, u: UserId, command: Command)
    requires CanStep(w, Start(a))
    ensures var w3 := Commanded(w, a, u, command);
            && w3.contents == w.contents && w3.recorded == w.recorded && w3.store.committed == w.store.committed
            && w3.store.IsRunning(a) && w3.store.attempts[a] == Attempt(map[], map[], Running) && PendingOf(w3, a) == []
  {
    hide Issued, Loaded;
  }

  lemma NotRefused(w: World, w3: World, a: AttemptId, u: UserId, save: Save)
    requires w3.contents == w.contents && w3.store.committed == w.store.committed && |w.copies| < |w3.copies|
    requires var c := w3.copies[|w.copies|]; c.user == u && c.version == VersionAt(w.contents, Get(w.store.committed, u))
    requires save == (if StoredAt(w, u).Some? then Update else Add)
    ensures !Refused(w3, w3.copies[|w.copies|], save)
  {
  }

  /** The first write of an attempt under a user's id. */
  lemma PersistedWrites(w: World, h: nat)
    requires StoreInv(w.store) && Holds(w, h) && w.store.attempts[w.copies[h].attempt] == Attempt(map[], map[], Running)
    ensures var c, w' := w.copies[h], Persisted(w, h);
            HasWritten(w', c.attempt, c.user) && Found(w', c.attempt, c.user) == Get(w.store.committed, c.user)
  {
    PutEffect(w.store, w.copies[h].attempt, w.copies[h].user);
    hide StoreInv, Next;
  }

  /** Attempt `a` has stored these grants under the user, has these facts pending, and found what `w` holds. */
  ghost predicate SavedBy(w: World, w': World, a: AttemptId, u: UserId, grants: seq<RoleGrant>, facts: seq<Fact>) {
    && HasWritten(w', a, u) && Found(w', a, u) == Get(w.store.committed, u)
    && GrantsOf(StoredAt(w', u)) == grants && PendingOf(w', a) == facts && w'.recorded == w.recorded
    && |w.contents| <= |w'.contents| && w'.contents[..|w.contents|] == w.contents
    && (u in w.store.committed ==> w.store.committed[u] < |w.contents|)
  }

  lemma CommandedCopy(w: World, a: AttemptId, u: UserId, g: RoleGrant)
    requires CanStep(w, Start(a)) && g !in GrantsOf(StoredAt(w, u))
    ensures var w3 := Commanded(w, a, u, Grant(g));
            && Holds(w3, |w.copies|)
            && var c := w3.copies[|w.copies|];
            && c.attempt == a && c.user == u && c.version == VersionAt(w.contents, Get(w.store.committed, u))
            && c.grants == GrantsOf(StoredAt(w, u)) + [g] && c.facts == [RoleGranted(u, g.role, g.scope.Club())]
  {
    StoredGrants(w, u);
    hide GrantsAt, StoredAt, VersionAt, GrantsOf;
  }

  lemma SucceedsAfterSave(w4: World, a: AttemptId, u: UserId)
    requires HasWritten(w4, a, u)
    ensures CanStep(w4, Succeed(a)) && StoredAt(NextWorld(w4, Succeed(a)), u) == StoredAt(w4, u)
    ensures NextWorld(w4, Succeed(a)).recorded == w4.recorded + Stamped(a, PendingOf(w4, a))
  {
    hide NextWorld, CanStep, Next, StoredAt, Stamped, Before, HasWritten;
    WriterCanEnd(w4, a, u);
    SucceedTracks(w4, a, a, u);
    SucceedShape(w4, a);
  }

  lemma FailsAfterSave(w: World, w4: World, a: AttemptId, u: UserId)
    requires AllInv(w4) && HasWritten(w4, a, u) && Found(w4, a, u) == Get(w.store.committed, u)
    requires |w.contents| <= |w4.contents| && w4.contents[..|w.contents|] == w.contents
    requires u in w.store.committed ==> w.store.committed[u] < |w.contents|
    ensures CanStep(w4, Fail(a)) && GrantsOf(StoredAt(NextWorld(w4, Fail(a)), u)) == GrantsOf(StoredAt(w, u))
    ensures NextWorld(w4, Fail(a)).recorded == w4.recorded
  {
    hide AllInv, StoreInv, NextWorld, CanStep, Next, StoredAt, GrantsOf, Before, Found, HasWritten;
    WriterCanEnd(w4, a, u);
    StoreParts(w4);
    FoundGrants(w, w4, a, u);
    FailShape(w4, a);
    FailStored(w4, a, u);
  }

  lemma WriterCanEnd(w: World, a: AttemptId, u: UserId)
    requires HasWritten(w, a, u)
    ensures CanStep(w, Succeed(a)) && CanStep(w, Fail(a))
  {
  }

  lemma StoreParts(w: World)
    requires AllInv(w)
    ensures StoreInv(w.store) && |w.contents| == |w.store.log|
  {
    hide StoreInv, CopiesInv, WriterFits, RestFits;
  }

  lemma FoundGrants(w: World, w4: World, a: AttemptId, u: UserId)
    requires HasWritten(w4, a, u) && Found(w4, a, u) == Get(w.store.committed, u)
    requires |w.contents| <= |w4.contents| && w4.contents[..|w.contents|] == w.contents
    requires u in w.store.committed ==> w.store.committed[u] < |w.contents|
    ensures Before(w4, a, u) == GrantsOf(StoredAt(w, u))
  {
    StoredGrants(w, u);
    hide StoredAt, HasWritten;
  }
}
