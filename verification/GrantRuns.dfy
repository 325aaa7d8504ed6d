/**
 Attempts that load, change and save role grants, interleaved: recorded facts against stored grants
 (user-role-grants.ts:106-148, fake-iam-unit-of-work.ts:168-222, 235-263).
 */
module GrantRuns {
  import opened Wrappers
  import opened Users
  import opened RollbackStore
  import opened RoleGrants

  datatype Saved = Saved(version: nat, grants: seq<RoleGrant>)

  datatype Save = Add | Update

  /** A recorded event: the fact, and the attempt whose unit of work stamped it. */
  datatype Recorded = Recorded(attempt: AttemptId, fact: Fact)

  /** A root handed out by `findByUser`: the instance it was copied from, and what its attempt has done to it since. */
  datatype Copy = Copy(
    attempt: AttemptId, user: UserId, loaded: Option<Instance>, version: nat, grants: seq<RoleGrant>, facts: seq<Fact>, saved: bool)

  /** `contents[r]` is the root stored by instance `r`. */
  datatype World = World(
    store: Store<UserId>, contents: seq<Saved>, copies: seq<Copy>, pending: map<AttemptId, seq<Fact>>, recorded: seq<Recorded>)

  datatype Step =
    | Start(attempt: AttemptId)
    /** `findByUser` hands the attempt a new copy. */
    | Load(attempt: AttemptId, user: UserId)
    /** One command on a copy. */
    | Issue(copy: nat, command: Command)
    /** `add` or `update` of a copy. */
    | Persist(copy: nat, save: Save)
    | Succeed(attempt: AttemptId)
    | Fail(attempt: AttemptId)

  ghost function GrantsAt(contents: seq<Saved>, r: Option<Instance>): seq<RoleGrant> {
    if r.Some? && r.value < |contents| then contents[r.value].grants else []
  }

  /** Version 0 stands for no stored root. */
  ghost function VersionAt(contents: seq<Saved>, r: Option<Instance>): nat {
    if r.Some? && r.value < |contents| then contents[r.value].version else 0
  }

  ghost function StoredAt(w: World, user: UserId): Option<Saved> {
    if user in w.store.committed && w.store.committed[user] < |w.contents| then Some(w.contents[w.store.committed[user]]) else None
  }

  ghost function GrantsOf(root: Option<Saved>): seq<RoleGrant> { if root.Some? then root.value.grants else [] }

  ghost predicate HasWritten(w: World, a: AttemptId, user: UserId) {
    w.store.IsRunning(a) && user in w.store.attempts[a].written
  }

  ghost predicate Holds(w: World, h: nat) {
    h < |w.copies| && w.store.IsRunning(w.copies[h].attempt)
  }

  /** The one restriction: a root that another running attempt has written is not read. Writes are not restricted. */
  ghost predicate CanStep(w: World, e: Step) {
    match e
    case Start(a) => Enabled(w.store, Begin(a))
    case Load(a, u) => w.store.IsRunning(a) && forall b :: b != a ==> !HasWritten(w, b, u)
    case Issue(h, _) => Holds(w, h)
    case Persist(h, _) => Holds(w, h)
    case Succeed(a) => Enabled(w.store, Commit(a))
    case Fail(a) => Enabled(w.store, Abort(a))
  }

  /** `add` wants no stored root, `update` one at the copy's version. */
  ghost predicate Refused(w: World, c: Copy, save: Save) {
    match save
    case Add => StoredAt(w, c.user).Some?
    case Update => StoredAt(w, c.user).None? || StoredAt(w, c.user).value.version != c.version
  }

  ghost function PendingOf(w: World, a: AttemptId): seq<Fact> { if a in w.pending then w.pending[a] else [] }

  ghost function Stamped(a: AttemptId, facts: seq<Fact>): (r: seq<Recorded>)
    ensures |r| == |facts| && forall i :: 0 <= i < |r| ==> r[i] == Recorded(a, facts[i])
  {
    seq(|facts|, i requires 0 <= i < |facts| => Recorded(a, facts[i]))
  }

  ghost function Loaded(w: World, a: AttemptId, u: UserId): Copy {
    var r := Get(w.store.committed, u);
    Copy(a, u, r, VersionAt(w.contents, r), GrantsAt(w.contents, r), [], false)
  }

  /** A refused command changes nothing. */
  ghost function Issued(c: Copy, command: Command): Copy {
    if Changes(c.grants, command) then
      var f := FactOf(c.user, command);
      c.(grants := Applied(c.grants, f), facts := c.facts + [f])
    else c
  }

  ghost function NextWorld(w: World, e: Step): World
    requires CanStep(w, e)
  {
    match e
    case Start(a) => w.(store := Next(w.store, Begin(a)), pending := w.pending[a := []])
    case Load(a, u) => w.(copies := w.copies + [Loaded(w, a, u)])
    case Issue(h, command) => w.(copies := w.copies[h := Issued(w.copies[h], command)])
    case Persist(h, save) => if Refused(w, w.copies[h], save) then w else Persisted(w, h)
    case Succeed(a) => w.(store := Next(w.store, Commit(a)), recorded := w.recorded + Stamped(a, PendingOf(w, a)))
    case Fail(a) => w.(store := Next(w.store, Abort(a)))
  }

  /** A save that goes through stores a fresh instance at the next version, and takes the copy's facts. */
  ghost function Persisted(w: World, h: nat): World
    requires Holds(w, h)
  {
    var c := w.copies[h];
    World(
      Next(w.store, Put(c.attempt, c.user)),
      w.contents + [Saved(VersionAt(w.contents, Get(w.store.committed, c.user)) + 1, c.grants)],
      w.copies[h := c.(facts := [], saved := true)],
      w.pending[c.attempt := PendingOf(w, c.attempt) + c.facts],
      w.recorded)
  }

  ghost function Empty(): World { World(Initial(), [], [], map[], []) }

  ghost predicate Possible(run: seq<Step>)
    decreases |run|, 0
  {
    run == [] || (var n := |run| - 1; Possible(run[..n]) && CanStep(Reached(run[..n]), run[n]))
  }

  ghost function Reached(run: seq<Step>): World
    requires Possible(run)
    decreases |run|, 1
  {
    if run == [] then Empty() else
    var n := |run| - 1;
    NextWorld(Reached(run[..n]), run[n])
  }

  lemma Continue(run: seq<Step>, e: Step)
    requires Possible(run) && CanStep(Reached(run), e)
    ensures Possible(run + [e]) && Reached(run + [e]) == NextWorld(Reached(run), e)
  {
    assert (run + [e])[..|run|] == run;
  }

  // ---------------------------------------------------------------------------------------------
  // The facts about one user
  // ---------------------------------------------------------------------------------------------

  function About(facts: seq<Fact>, user: UserId): seq<Fact> {
    if facts == [] then []
    else
      var n := |facts| - 1;
      About(facts[..n], user) + if facts[n].user == user then [facts[n]] else []
  }

  function FactsIn(recorded: seq<Recorded>): (facts: seq<Fact>)
    ensures |facts| == |recorded| && forall i :: 0 <= i < |recorded| ==> facts[i] == recorded[i].fact
  {
    seq(|recorded|, i requires 0 <= i < |recorded| => recorded[i].fact)
  }

  lemma {:induction false} AboutConcat(first: seq<Fact>, rest: seq<Fact>, user: UserId)
    ensures About(first + rest, user) == About(first, user) + About(rest, user)
    decreases |rest|
  {
    if rest == [] {
      assert first + rest == first;
    } else {
      var n := |rest| - 1;
      AboutConcat(first, rest[..n], user);
      var all := first + rest;
      assert all[..|all| - 1] == first + rest[..n] && all[|all| - 1] == rest[n];
    }
  }

  lemma {:induction false} AboutOwn(facts: seq<Fact>, owner: UserId, user: UserId)
    requires forall f :: f in facts ==> f.user == owner
    ensures About(facts, user) == if user == owner then facts else []
  {
    if facts != [] {
      var n := |facts| - 1;
      assert facts[n] in facts;
      AboutOwn(facts[..n], owner, user);
      assert facts == facts[..n] + [facts[n]];
    }
  }

  /** Fact `i` grants the user the grant, and no later fact is about the two. */
  ghost predicate Decides(facts: seq<Fact>, i: int, user: UserId, g: RoleGrant) {
    && 0 <= i < |facts| && facts[i].RoleGranted? && facts[i].user == user && IsAbout(facts[i], g)
    && forall j :: i < j < |facts| ==> !(facts[j].user == user && IsAbout(facts[j], g))
  }

  /** Held after the user's own facts, with nothing held before: the last of all facts about user and grant grants it. */
  lemma {:induction false} AboutHolds(facts: seq<Fact>, user: UserId, g: RoleGrant)
    ensures HeldAfter([], About(facts, user), g) <==> exists i :: Decides(facts, i, user, g)
    decreases |facts|
  {
    if facts != [] {
      var n := |facts| - 1;
      var before, last := facts[..n], facts[n];
      AboutHolds(before, user, g);
      DecidesOneMore(before, last, user, g);
      assert before + [last] == facts;
      if last.user == user {
        HeldOneMore(About(before, user), last, g);
      } else {
        assert About(facts, user) == About(before, user);
      }
      hide HeldAfter, Decides, IsAbout;
    }
  }

  lemma DecidesOneMore(before: seq<Fact>, last: Fact, user: UserId, g: RoleGrant)
    ensures (exists i :: Decides(before + [last], i, user, g)) <==>
            if last.user == user && IsAbout(last, g) then last.RoleGranted? else exists i :: Decides(before, i, user, g)
  {
    hide IsAbout;
    var facts, n := before + [last], |before|;
    assert facts[n] == last && forall i :: 0 <= i < n ==> facts[i] == before[i];
    if last.user == user && IsAbout(last, g) {
      if last.RoleGranted? { assert Decides(facts, n, user, g); }
    } else {
      if i :| Decides(before, i, user, g) { assert Decides(facts, i, user, g); }
      if i :| Decides(facts, i, user, g) { assert Decides(before, i, user, g); }
    }
  }

  lemma HeldOneMore(before: seq<Fact>, last: Fact, g: RoleGrant)
    ensures HeldAfter([], before + [last], g) <==> if IsAbout(last, g) then last.RoleGranted? else HeldAfter([], before, g)
  {
    var facts, n := before + [last], |before|;
    assert facts[n] == last && facts[..n] == before;
    if !IsAbout(last, g) { HeldBefore([], facts, g); }
    hide IsAbout;
  }

  /** What a reader of the recorded events rebuilds for a user. */
  ghost function Rebuilt(w: World, user: UserId): seq<RoleGrant> {
    ReplayFrom([], About(FactsIn(w.recorded), user))
  }

  // ---------------------------------------------------------------------------------------------
  // What every step keeps
  // ---------------------------------------------------------------------------------------------

  ghost predicate StoreInv(s: Store<UserId>) { Inv(s) && Live(s) && Exclusive(s) }

  /** The grants an attempt found before its first write of a user's root. */
  ghost function Before(w: World, a: AttemptId, user: UserId): seq<RoleGrant>
    requires HasWritten(w, a, user)
  {
    var p := w.store.attempts[a].prior;
    GrantsAt(w.contents, if user in p then p[user] else None)
  }

  lemma StoredGrants(w: World, user: UserId)
    ensures GrantsOf(StoredAt(w, user)) == GrantsAt(w.contents, Get(w.store.committed, user))
  {
  }

  /** A running attempt found what the recorded events rebuild, and its pending facts lead to what it stored. */
  ghost predicate WriterFits(w: World, a: AttemptId, user: UserId) {
    if HasWritten(w, a, user) then
      && Before(w, a, user) == Rebuilt(w, user)
      && GrantsOf(StoredAt(w, user)) == ReplayFrom(Rebuilt(w, user), About(PendingOf(w, a), user))
    else w.store.IsRunning(a) ==> About(PendingOf(w, a), user) == []
  }

  /** A root no running attempt has written is what the recorded events rebuild. */
  ghost predicate RestFits(w: World, user: UserId) {
    (forall a :: !HasWritten(w, a, user)) ==> GrantsOf(StoredAt(w, user)) == Rebuilt(w, user)
  }

  ghost predicate GrantsInv(w: World) {
    && |w.contents| == |w.store.log|
    && (forall r :: 0 <= r < |w.contents| ==> NoDuplicates(w.contents[r].grants))
    && (forall a, u :: WriterFits(w, a, u))
    && (forall u :: RestFits(w, u))
    && (forall i :: 0 <= i < |w.recorded| ==> Finished(w.store, w.recorded[i].attempt))
  }

  // The store underneath

  /** Two running attempts have not both written one user's root. */
  lemma OneWriter(s: Store<UserId>, a: AttemptId, b: AttemptId, u: UserId)
    requires StoreInv(s) && s.IsRunning(a) && s.IsRunning(b) && u in s.attempts[a].written && u in s.attempts[b].written
    ensures a == b
  {
    assert Owns(s, a, u) && Owns(s, b, u);
    assert TidyAttempt(s, a) && TidyAttempt(s, b);
    hide Inv, Live, Exclusive;
    assert s.log[s.attempts[a].written[u]] == LogEntry(a, u);
  }

  lemma NoOtherWriter(s: Store<UserId>, a: AttemptId, b: AttemptId, u: UserId)
    requires StoreInv(s) && s.IsRunning(a) && Considerate(s, Put(a, u)) && s.IsRunning(b) && u in s.attempts[b].written
    ensures a == b
  {
    assert Owns(s, b, u) && TidyAttempt(s, b);
    hide Inv, Live, Exclusive;
    assert s.log[s.attempts[b].written[u]] == LogEntry(b, u);
  }

  lemma PutEffect(s: Store<UserId>, a: AttemptId, u: UserId)
    requires StoreInv(s) && s.IsRunning(a)
    ensures var s', t := Next(s, Put(a, u)), s.attempts[a];
            && s'.committed == s.committed[u := |s.log|] && s'.log == s.log + [LogEntry(a, u)]
            && s'.attempts == s.attempts[a := s'.attempts[a]]
            && s'.attempts[a] == Attempt(s'.attempts[a].prior, t.written[u := |s.log|], Running)
            && s'.attempts[a].prior == (if u in t.written then t.prior else t.prior[u := Get(s.committed, u)])
  {
    assert TidyAttempt(s, a);
    if u in s.attempts[a].written { assert Owns(s, a, u); }
    hide Inv, Live, Exclusive, TidyAttempt;
  }

  /** A failing attempt puts back what it found, and nothing else changes. */
  lemma FailEffect(s: Store<UserId>, a: AttemptId, u: UserId)
    requires StoreInv(s) && s.IsRunning(a)
    ensures var s', t := Next(s, Abort(a)), s.attempts[a];
            && (u in t.written ==> u in t.prior)
            && Get(s'.committed, u) == (if u in t.written then t.prior[u] else Get(s.committed, u))
  {
    AbortEffect(s, a);
    assert TidyAttempt(s, a);
    if u in s.attempts[a].written { assert Owns(s, a, u); }
    assert Get(Next(s, Abort(a)).committed, u) == RestoredAt(s.committed, s.attempts[a].prior, s.attempts[a].written, u);
    hide Inv, Live, Exclusive, TidyAttempt, Next;
  }

  lemma FailKeepsRest(s: Store<UserId>, a: AttemptId)
    requires s.IsRunning(a)
    ensures var s' := Next(s, Abort(a));
            s'.log == s.log && s'.attempts == s.attempts[a := s.attempts[a].(phase := Aborted)]
  {
    hide Restored;
  }

  lemma StoreInvNext(s: Store<UserId>, e: Event<UserId>)
    requires StoreInv(s) && Enabled(s, e) && Considerate(s, e)
    ensures StoreInv(Next(s, e))
  {
    hide Inv, Live, Exclusive, Next;
    ExclusiveNext(s, e);
  }

  lemma StoredInLog(w: World, u: UserId)
    requires StoreInv(w.store) && |w.contents| == |w.store.log|
    ensures u in w.store.committed ==> w.store.committed[u] < |w.contents|
    ensures forall a :: HasWritten(w, a, u) ==>
              u in w.store.attempts[a].prior &&
              (w.store.attempts[a].prior[u].Some? ==> w.store.attempts[a].prior[u].value < |w.contents|)
  {
    forall a | HasWritten(w, a, u)
      ensures u in w.store.attempts[a].prior &&
              (w.store.attempts[a].prior[u].Some? ==> w.store.attempts[a].prior[u].value < |w.contents|)
    {
      assert TidyAttempt(w.store, a);
    }
    hide Live, Exclusive;
  }

  // Starting

  lemma StartKeeps(w: World, a: AttemptId)
    requires GrantsInv(w) && CanStep(w, Start(a))
    ensures GrantsInv(NextWorld(w, Start(a)))
  {
    var w' := NextWorld(w, Start(a));
    hide ReplayFrom, About, NoDuplicates, FactsIn;
    forall b, u ensures WriterFits(w', b, u) && (HasWritten(w', b, u) <==> HasWritten(w, b, u)) {
      AboutOwn([], u, u);
      assert WriterFits(w, b, u);
    }
    forall u ensures RestFits(w', u) {
      assert RestFits(w, u);
    }
  }

  // Changing a root

  /** The loaded grants are what the recorded events rebuild, plus the attempt's own pending facts. */
  lemma LoadedIs(w: World, a: AttemptId, u: UserId)
    requires StoreInv(w.store) && GrantsInv(w) && w.store.IsRunning(a) && Considerate(w.store, Put(a, u))
    ensures GrantsOf(StoredAt(w, u)) == ReplayFrom(Rebuilt(w, u), About(PendingOf(w, a), u))
    ensures !HasWritten(w, a, u) ==> GrantsOf(StoredAt(w, u)) == Rebuilt(w, u)
  {
    assert WriterFits(w, a, u) && RestFits(w, u);
    if !HasWritten(w, a, u) {
      forall b ensures !HasWritten(w, b, u) {
        if HasWritten(w, b, u) { NoOtherWriter(w.store, a, b, u); }
      }
    }
    hide StoreInv, GrantsInv, Rebuilt, About, Considerate;
  }

  /** A save by `a` that leads from the stored grants to new ones by these facts, spelled out. */
  ghost predicate ChangesTo(w: World, a: AttemptId, u: UserId, facts: seq<Fact>, w': World) {
    && w'.store.committed == w.store.committed[u := |w.store.log|] && w'.store.log == w.store.log + [LogEntry(a, u)]
    && |w'.contents| == |w.contents| + 1 && w'.contents[..|w.contents|] == w.contents
    && w'.contents[|w.contents|].grants == ReplayFrom(GrantsOf(StoredAt(w, u)), facts)
    && NoDuplicates(w'.contents[|w.contents|].grants) && (forall f :: f in facts ==> f.user == u)
    && PendingOf(w', a) == PendingOf(w, a) + facts
    && (forall b :: b != a ==> PendingOf(w', b) == PendingOf(w, b))
    && w'.recorded == w.recorded
  }

  ghost predicate TracksTo(s: Store<UserId>, a: AttemptId, u: UserId, s': Store<UserId>) {
    && s.IsRunning(a) && s'.IsRunning(a) && s'.attempts == s.attempts[a := s'.attempts[a]]
    && s'.attempts[a].written == s.attempts[a].written[u := |s.log|]
    && s'.attempts[a].prior == (if u in s.attempts[a].written then s.attempts[a].prior else s.attempts[a].prior[u := Get(s.committed, u)])
  }

  lemma PutTracks(s: Store<UserId>, a: AttemptId, u: UserId)
    requires StoreInv(s) && s.IsRunning(a)
    ensures TracksTo(s, a, u, Next(s, Put(a, u)))
  {
    PutEffect(s, a, u);
    hide StoreInv, Next;
  }

  lemma ChangedStored(w: World, a: AttemptId, u: UserId, facts: seq<Fact>, w': World, v: UserId)
    requires StoreInv(w.store) && |w.contents| == |w.store.log| && ChangesTo(w, a, u, facts, w')
    ensures v != u ==> StoredAt(w', v) == StoredAt(w, v)
    ensures GrantsOf(StoredAt(w', u)) == ReplayFrom(GrantsOf(StoredAt(w, u)), facts)
  {
    hide StoreInv, ReplayFrom, PendingOf, HasWritten;
    StoredInLog(w, v);
  }

  lemma TrackedWritten(w: World, a: AttemptId, u: UserId, w': World, b: AttemptId, v: UserId)
    requires TracksTo(w.store, a, u, w'.store)
    ensures HasWritten(w', b, v) <==> HasWritten(w, b, v) || (b == a && v == u)
    ensures w'.store.IsRunning(b) <==> w.store.IsRunning(b)
  {
  }

  /** An attempt still remembers what it found; one that writes for the first time remembers what was stored. */
  lemma ChangedBefore(w: World, a: AttemptId, u: UserId, facts: seq<Fact>, w': World, b: AttemptId, v: UserId)
    requires StoreInv(w.store) && |w.contents| == |w.store.log| && ChangesTo(w, a, u, facts, w') && TracksTo(w.store, a, u, w'.store)
    requires HasWritten(w', b, v)
    ensures Before(w', b, v) == if HasWritten(w, b, v) then Before(w, b, v) else GrantsOf(StoredAt(w, u))
  {
    hide StoreInv, StoredAt, ReplayFrom, PendingOf;
    StoredInLog(w, v);
    StoredGrants(w, u);
    TrackedWritten(w, a, u, w', b, v);
    assert w'.contents[..|w.contents|] == w.contents;
    hide ChangesTo;
    var p, p' := w.store.attempts[b].prior, w'.store.attempts[b].prior;
    if HasWritten(w, b, v) {
      assert v in p && v in p' && p'[v] == p[v];
    } else {
      assert v in p' && p'[v] == Get(w.store.committed, u);
    }
    hide TracksTo, HasWritten;
  }

  /** The writer itself: its pending facts still lead from what it found to what it stored. */
  lemma ChangeFitsWriter(w: World, a: AttemptId, u: UserId, facts: seq<Fact>, w': World)
    requires StoreInv(w.store) && GrantsInv(w) && w.store.IsRunning(a) && Considerate(w.store, Put(a, u))
    requires ChangesTo(w, a, u, facts, w') && TracksTo(w.store, a, u, w'.store)
    ensures WriterFits(w', a, u)
  {
    assert WriterFits(w, a, u) && |w.contents| == |w.store.log|;
    LoadedIs(w, a, u);
    hide GrantsInv, StoreInv, Considerate;
    ChangedStored(w, a, u, facts, w', u);
    TrackedWritten(w, a, u, w', a, u);
    ChangedBefore(w, a, u, facts, w', a, u);
    hide TracksTo, HasWritten, Before, StoredAt;
    AboutConcat(PendingOf(w, a), facts, u);
    AboutOwn(facts, u, u);
    ReplayConcat(Rebuilt(w, u), About(PendingOf(w, a), u), facts);
    assert Rebuilt(w', u) == Rebuilt(w, u);
    hide Rebuilt, About, ReplayFrom, PendingOf;
  }

  /** Nothing that bears on this attempt and this user has changed. */
  lemma FitsCarriesOver(w: World, w': World, b: AttemptId, v: UserId)
    requires WriterFits(w, b, v) && (HasWritten(w', b, v) <==> HasWritten(w, b, v))
    requires w'.store.IsRunning(b) ==> w.store.IsRunning(b)
    requires HasWritten(w, b, v) && HasWritten(w', b, v) ==>
               Before(w', b, v) == Before(w, b, v) && GrantsOf(StoredAt(w', v)) == GrantsOf(StoredAt(w, v))
    requires Rebuilt(w', v) == Rebuilt(w, v) && About(PendingOf(w', b), v) == About(PendingOf(w, b), v)
    ensures WriterFits(w', b, v)
  {
    hide HasWritten, Before, StoredAt, Rebuilt, About, PendingOf;
  }

  lemma OtherPending(w: World, a: AttemptId, u: UserId, facts: seq<Fact>, w': World, b: AttemptId, v: UserId)
    requires ChangesTo(w, a, u, facts, w') && (b != a || v != u)
    ensures About(PendingOf(w', b), v) == About(PendingOf(w, b), v) && Rebuilt(w', v) == Rebuilt(w, v)
  {
    AboutConcat(PendingOf(w, a), facts, v);
    AboutOwn(facts, u, v);
    hide About, ReplayFrom, PendingOf, StoredAt;
  }

  lemma ChangeFitsOthers(w: World, a: AttemptId, u: UserId, facts: seq<Fact>, w': World, b: AttemptId, v: UserId)
    requires StoreInv(w.store) && GrantsInv(w) && w.store.IsRunning(a) && Considerate(w.store, Put(a, u)) && (b != a || v != u)
    requires ChangesTo(w, a, u, facts, w') && TracksTo(w.store, a, u, w'.store)
    ensures WriterFits(w', b, v)
  {
    assert WriterFits(w, b, v) && |w.contents| == |w.store.log|;
    if v == u && HasWritten(w, b, u) { NoOtherWriter(w.store, a, b, u); }
    hide GrantsInv, StoreInv, Considerate, ChangesTo, TracksTo, WriterFits;
    TrackedWritten(w, a, u, w', b, v);
    if HasWritten(w', b, v) {
      ChangedStored(w, a, u, facts, w', v);
      ChangedBefore(w, a, u, facts, w', b, v);
    }
    OtherPending(w, a, u, facts, w', b, v);
    hide HasWritten, Before, StoredAt, About, PendingOf, Rebuilt, ReplayFrom;
    FitsCarriesOver(w, w', b, v);
  }

  lemma ChangeIsKept(w: World, a: AttemptId, u: UserId, facts: seq<Fact>, w': World)
    requires StoreInv(w.store) && GrantsInv(w) && w.store.IsRunning(a) && Considerate(w.store, Put(a, u))
    requires ChangesTo(w, a, u, facts, w') && TracksTo(w.store, a, u, w'.store)
    ensures GrantsInv(w')
  {
    hide StoreInv, Considerate, ChangesTo, TracksTo, WriterFits, RestFits, NoDuplicates, Finished;
    ChangedRecords(w, a, u, facts, w');
    forall b, v ensures WriterFits(w', b, v) {
      if b == a && v == u { ChangeFitsWriter(w, a, u, facts, w'); } else { ChangeFitsOthers(w, a, u, facts, w', b, v); }
    }
    forall v ensures RestFits(w', v) { ChangeRests(w, a, u, facts, w', v); }
    ChangedContents(w, a, u, facts, w');
  }

  lemma ChangedRecords(w: World, a: AttemptId, u: UserId, facts: seq<Fact>, w': World)
    requires ChangesTo(w, a, u, facts, w') && TracksTo(w.store, a, u, w'.store)
    ensures w'.recorded == w.recorded && (|w.contents| == |w.store.log| ==> |w'.contents| == |w'.store.log|)
    ensures forall b :: Finished(w.store, b) ==> Finished(w'.store, b)
  {
    hide ReplayFrom, StoredAt, NoDuplicates, PendingOf;
  }

  lemma ChangeRests(w: World, a: AttemptId, u: UserId, facts: seq<Fact>, w': World, v: UserId)
    requires StoreInv(w.store) && GrantsInv(w) && ChangesTo(w, a, u, facts, w') && TracksTo(w.store, a, u, w'.store)
    ensures RestFits(w', v)
  {
    assert RestFits(w, v);
    ChangedStored(w, a, u, facts, w', v);
    forall b ensures HasWritten(w, b, v) ==> HasWritten(w', b, v) { TrackedWritten(w, a, u, w', b, v); }
    TrackedWritten(w, a, u, w', a, u);
    assert Rebuilt(w', v) == Rebuilt(w, v);
    hide HasWritten, StoreInv, GrantsInv, StoredAt, ReplayFrom, Rebuilt, TracksTo, ChangesTo;
  }

  lemma ChangedContents(w: World, a: AttemptId, u: UserId, facts: seq<Fact>, w': World)
    requires (forall r :: 0 <= r < |w.contents| ==> NoDuplicates(w.contents[r].grants)) && ChangesTo(w, a, u, facts, w')
    ensures forall r :: 0 <= r < |w'.contents| ==> NoDuplicates(w'.contents[r].grants)
  {
    hide NoDuplicates, ReplayFrom, StoredAt, PendingOf;
    assert forall r :: 0 <= r < |w.contents| ==> w'.contents[r] == w'.contents[..|w.contents|][r];
  }

  // Ending an attempt

  lemma RecordedConcat(recorded: seq<Recorded>, a: AttemptId, facts: seq<Fact>)
    ensures FactsIn(recorded + Stamped(a, facts)) == FactsIn(recorded) + facts
  {
  }

  /** After a success the recorded events rebuild what the pending facts add. */
  lemma SucceedRebuilds(w: World, a: AttemptId, u: UserId)
    requires CanStep(w, Succeed(a))
    ensures Rebuilt(NextWorld(w, Succeed(a)), u) == ReplayFrom(Rebuilt(w, u), About(PendingOf(w, a), u))
  {
    RecordedConcat(w.recorded, a, PendingOf(w, a));
    AboutConcat(FactsIn(w.recorded), PendingOf(w, a), u);
    ReplayConcat([], About(FactsIn(w.recorded), u), About(PendingOf(w, a), u));
    hide Stamped, FactsIn, About, ReplayFrom, PendingOf, Next;
  }

  lemma SucceedTracks(w: World, a: AttemptId, b: AttemptId, u: UserId)
    requires CanStep(w, Succeed(a))
    ensures var w' := NextWorld(w, Succeed(a));
            && (HasWritten(w', b, u) <==> HasWritten(w, b, u) && b != a) && StoredAt(w', u) == StoredAt(w, u)
            && (w'.store.IsRunning(b) <==> w.store.IsRunning(b) && b != a) && PendingOf(w', b) == PendingOf(w, b)
            && (HasWritten(w', b, u) ==> Before(w', b, u) == Before(w, b, u))
  {
    hide Stamped, Restored, Remembered;
  }

  lemma ReplayNothing(grants: seq<RoleGrant>)
    ensures ReplayFrom(grants, []) == grants
  {
  }

  lemma SucceedFits(w: World, a: AttemptId, b: AttemptId, u: UserId)
    requires StoreInv(w.store) && GrantsInv(w) && CanStep(w, Succeed(a))
    ensures WriterFits(NextWorld(w, Succeed(a)), b, u)
  {
    assert WriterFits(w, a, u) && WriterFits(w, b, u);
    SucceedRebuilds(w, a, u);
    SucceedTracks(w, a, b, u);
    ReplayNothing(Rebuilt(w, u));
    if HasWritten(w, a, u) && HasWritten(w, b, u) { OneWriter(w.store, a, b, u); }
    assert w.store.IsRunning(a);
    hide StoreInv, GrantsInv, NextWorld, CanStep, Rebuilt, About, Before, StoredAt, ReplayFrom, PendingOf, HasWritten;
  }

  lemma SucceedRests(w: World, a: AttemptId, u: UserId)
    requires StoreInv(w.store) && GrantsInv(w) && CanStep(w, Succeed(a))
    ensures RestFits(NextWorld(w, Succeed(a)), u)
  {
    assert RestFits(w, u) && WriterFits(w, a, u) && w.store.IsRunning(a);
    SucceedRebuilds(w, a, u);
    forall b ensures var w' := NextWorld(w, Succeed(a)); HasWritten(w, b, u) && b != a ==> HasWritten(w', b, u) { SucceedTracks(w, a, b, u); }
    SucceedTracks(w, a, a, u);
    ReplayNothing(Rebuilt(w, u));
    hide StoreInv, GrantsInv, NextWorld, CanStep, Rebuilt, About, Before, StoredAt, ReplayFrom, PendingOf, HasWritten;
  }

  lemma SucceedShape(w: World, a: AttemptId)
    requires CanStep(w, Succeed(a))
    ensures var w' := NextWorld(w, Succeed(a));
            && w'.contents == w.contents && w'.store.log == w.store.log
            && w'.recorded == w.recorded + Stamped(a, PendingOf(w, a))
            && (forall b :: Finished(w.store, b) || b == a ==> Finished(w'.store, b))
  {
    hide Restored, Remembered;
  }

  lemma SucceedKeeps(w: World, a: AttemptId)
    requires StoreInv(w.store) && GrantsInv(w) && CanStep(w, Succeed(a))
    ensures GrantsInv(NextWorld(w, Succeed(a)))
  {
    hide StoreInv, WriterFits, RestFits, NoDuplicates, NextWorld, CanStep, PendingOf, Finished;
    var w' := NextWorld(w, Succeed(a));
    SucceedShape(w, a);
    forall b, u ensures WriterFits(w', b, u) { SucceedFits(w, a, b, u); }
    forall u ensures RestFits(w', u) { SucceedRests(w, a, u); }
  }

  lemma FailShape(w: World, a: AttemptId)
    requires CanStep(w, Fail(a))
    ensures NextWorld(w, Fail(a)) == w.(store := Next(w.store, Abort(a)))
    ensures w.store.IsRunning(a)
  {
    hide Next;
  }

  /** What a failing attempt leaves of the other attempts' positions. */
  lemma FailTracks(w: World, a: AttemptId, b: AttemptId, u: UserId)
    requires CanStep(w, Fail(a))
    ensures var w' := NextWorld(w, Fail(a));
            && (HasWritten(w', b, u) <==> HasWritten(w, b, u) && b != a)
            && (w'.store.IsRunning(b) <==> w.store.IsRunning(b) && b != a)
  {
    hide NextWorld, CanStep, Next;
    FailShape(w, a);
    FailKeepsRest(w.store, a);
  }

  lemma FailBefore(w: World, a: AttemptId, b: AttemptId, u: UserId)
    requires CanStep(w, Fail(a)) && HasWritten(NextWorld(w, Fail(a)), b, u)
    ensures HasWritten(w, b, u) && Before(NextWorld(w, Fail(a)), b, u) == Before(w, b, u)
  {
    hide NextWorld, CanStep, Next;
    FailShape(w, a);
    FailKeepsRest(w.store, a);
  }

  lemma FailRecords(w: World, a: AttemptId, b: AttemptId, u: UserId)
    requires CanStep(w, Fail(a))
    ensures PendingOf(NextWorld(w, Fail(a)), b) == PendingOf(w, b) && Rebuilt(NextWorld(w, Fail(a)), u) == Rebuilt(w, u)
  {
    hide NextWorld, CanStep, Next, ReplayFrom, About;
    FailShape(w, a);
  }

  lemma FailStored(w: World, a: AttemptId, u: UserId)
    requires StoreInv(w.store) && |w.contents| == |w.store.log| && CanStep(w, Fail(a))
    ensures var w' := NextWorld(w, Fail(a));
            GrantsOf(StoredAt(w', u)) == if HasWritten(w, a, u) then Before(w, a, u) else GrantsOf(StoredAt(w, u))
  {
    FailEffect(w.store, a, u);
    StoredGrants(w, u);
    StoredGrants(NextWorld(w, Fail(a)), u);
    hide Next, StoreInv, StoredAt, GrantsOf;
  }

  lemma FailFits(w: World, a: AttemptId, b: AttemptId, u: UserId)
    requires StoreInv(w.store) && GrantsInv(w) && CanStep(w, Fail(a))
    ensures WriterFits(NextWorld(w, Fail(a)), b, u)
  {
    assert WriterFits(w, b, u) && |w.contents| == |w.store.log| && w.store.IsRunning(a);
    hide StoreInv, GrantsInv, NextWorld, CanStep, WriterFits, Before, StoredAt, Rebuilt, About, PendingOf;
    FailTracks(w, a, b, u);
    FailRecords(w, a, b, u);
    FailStored(w, a, u);
    if HasWritten(w, a, u) && HasWritten(w, b, u) { OneWriter(w.store, a, b, u); }
    if b != a {
      hide HasWritten;
      if HasWritten(NextWorld(w, Fail(a)), b, u) { FailBefore(w, a, b, u); }
      FitsCarriesOver(w, NextWorld(w, Fail(a)), b, u);
    } else {
      OverFits(NextWorld(w, Fail(a)), a, u);
    }
  }

  lemma OverFits(w: World, a: AttemptId, u: UserId)
    requires !w.store.IsRunning(a)
    ensures WriterFits(w, a, u)
  {
  }

  lemma FailRests(w: World, a: AttemptId, u: UserId)
    requires StoreInv(w.store) && GrantsInv(w) && CanStep(w, Fail(a))
    ensures RestFits(NextWorld(w, Fail(a)), u)
  {
    assert RestFits(w, u) && WriterFits(w, a, u) && |w.contents| == |w.store.log|;
    hide StoreInv, GrantsInv, NextWorld, CanStep, Before, StoredAt, Rebuilt, About, PendingOf, HasWritten;
    FailStored(w, a, u);
    FailRecords(w, a, a, u);
    forall b ensures var w' := NextWorld(w, Fail(a)); HasWritten(w, b, u) && b != a ==> HasWritten(w', b, u) { FailTracks(w, a, b, u); }
    FailTracks(w, a, a, u);
  }

  lemma FailKeeps(w: World, a: AttemptId)
    requires StoreInv(w.store) && GrantsInv(w) && CanStep(w, Fail(a))
    ensures GrantsInv(NextWorld(w, Fail(a)))
  {
    var w' := NextWorld(w, Fail(a));
    forall b, u ensures WriterFits(w', b, u) { FailFits(w, a, b, u); }
    forall u ensures RestFits(w', u) { FailRests(w, a, u); }
    FailKeepsRest(w.store, a);
    hide StoreInv, WriterFits, RestFits, NoDuplicates, Next;
  }

  lemma StartsFit()
    ensures GrantsInv(Empty()) && StoreInv(Empty().store)
  {
    forall u ensures Rebuilt(Empty(), u) == [] {
      assert FactsIn([]) == [];
    }
  }

  /** Copies are not part of what is stored or recorded. */
  lemma CopiesAside(w: World, w': World)
    requires GrantsInv(w) && w' == w.(copies := w'.copies)
    ensures GrantsInv(w')
  {
    hide ReplayFrom, About, NoDuplicates, FactsIn;
    forall b, u ensures WriterFits(w', b, u) { assert WriterFits(w, b, u); }
    forall u ensures RestFits(w', u) {
      assert RestFits(w, u);
      assert forall b :: HasWritten(w', b, u) <==> HasWritten(w, b, u);
    }
  }
}
