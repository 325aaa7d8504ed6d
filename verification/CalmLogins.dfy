/**
 Logins and status changes when no attempt throws after it has written: nothing is ever undone, so versions
 count writes and every update replaces exactly the account its writer had loaded
 (authenticate.ts:85-142, fake-iam-unit-of-work.ts:107-151, user.ts:224-294).
 */
module CalmLogins {
  import opened Wrappers
  import opened Users
  import opened RollbackStore
  import opened LoginRuns
  import opened LoginUpdates

  // ---------------------------------------------------------------------------------------------
  // Runs without a throw after a write
  // ---------------------------------------------------------------------------------------------

  ghost predicate CalmStep(w: World, e: Step) { e.Throw? && e.attempt in w.pcs ==> !w.pcs[e.attempt].Saved? }

  ghost predicate CalmAt(canon: Canon, run: seq<Step>, i: nat)
    requires i < |run|
  {
    Possible(canon, run[..i]) && CalmStep(Reached(canon, run[..i]), run[i])
  }

  ghost predicate Calm(canon: Canon, run: seq<Step>) {
    forall i :: 0 <= i < |run| ==> CalmAt(canon, run, i)
  }

  /** The last write to `k` among the first `n` of the log. */
  ghost function LastWrite(log: seq<LogEntry<UserId>>, k: UserId, n: nat): (r: Option<Instance>)
    requires n <= |log|
    ensures r.Some? ==> r.value < n && log[r.value].key == k
    ensures forall i :: AfterInstance(r) <= i < n ==> log[i].key != k
  {
    if n == 0 then None else if log[n - 1].key == k then Some(n - 1) else LastWrite(log, k, n - 1)
  }

  ghost function Writes(log: seq<LogEntry<UserId>>, k: UserId, n: nat): nat
    requires n <= |log|
  {
    if n == 0 then 0 else Writes(log, k, n - 1) + if log[n - 1].key == k then 1 else 0
  }

  /** The stored account before write `r`, and what the writer made of it. */
  ghost predicate Follows(w: World, r: Instance)
    requires |w.users| == |w.store.log| && r < |w.store.log| && w.store.log[r].attempt in w.pcs && w.pcs[w.store.log[r].attempt].HasSaved()
  {
    match LastWrite(w.store.log, w.store.log[r].key, r)
    case None => w.users[r].version == 1 && w.users[r].status == Active
    case Some(p) =>
      && w.users[r].version == w.users[p].version + 1
      && (if w.pcs[w.store.log[r].attempt].login.Some? then w.users[p].status == Active && w.users[r].status == Active
          else w.users[r].status != w.users[p].status)
  }

  /** Every write stands, was made by an attempt that went on to respond, and follows from the one before it. */
  ghost predicate History(w: World) {
    && |w.users| == |w.store.log|
    && forall r :: 0 <= r < |w.store.log| ==> Standing(w, r) && Follows(w, r)
  }

  ghost predicate Standing(w: World, r: Instance)
    requires r < |w.store.log|
  {
    var a := w.store.log[r].attempt;
    a in w.pcs && w.pcs[a].HasSaved() && w.pcs[a].id == w.store.log[r].key
  }

  ghost predicate StoresLast(s: Store<UserId>) {
    forall k :: Get(s.committed, k) == LastWrite(s.log, k, |s.log|)
  }

  /** What a saved login answers with is the id minted for its subject. */
  ghost predicate Answers(w: World, a: AttemptId)
    requires a in w.pcs
  {
    var pc := w.pcs[a];
    && (pc.HasLoaded() ==> !pc.taken)
    && (pc.HasSaved() ==>
          pc.id in w.store.committed && pc.id in w.minted && (pc.login.Some? ==> w.minted[pc.id] == pc.login.value.sub))
  }

  /** An attempt that has not saved has written nothing. */
  ghost predicate WroteNothing(w: World, a: AttemptId)
    requires a in w.pcs
  {
    a in w.store.attempts && (!w.pcs[a].HasSaved() ==> w.store.attempts[a].prior == map[])
  }

  ghost predicate CalmInv(w: World) {
    && History(w) && StoresLast(w.store)
    && (forall a :: a in w.pcs ==> Answers(w, a) && WroteNothing(w, a))
  }

  lemma {:induction false} LastWriteOfLonger(log: seq<LogEntry<UserId>>, e: LogEntry<UserId>, k: UserId, n: nat)
    requires n <= |log|
    ensures LastWrite(log + [e], k, n) == LastWrite(log, k, n)
  {
    if n > 0 { LastWriteOfLonger(log, e, k, n - 1); }
  }

  /** Nothing written, nothing undone: such steps keep users, log and stored accounts, and what others answered. */
  ghost predicate Still(w: World, w': World, a: AttemptId) {
    && SameAccounts(w, w', a)
    && (forall b :: b in w.store.attempts && b != a ==> b in w'.store.attempts && w'.store.attempts[b].prior == w.store.attempts[b].prior)
    && a in w'.pcs
    && (a in w.pcs && w.pcs[a].HasSaved() ==>
          w'.pcs[a].HasSaved() && w'.pcs[a].id == w.pcs[a].id && w'.pcs[a].login == w.pcs[a].login)
  }

  lemma StillKeeps(w: World, w': World, a: AttemptId)
    requires CalmInv(w) && Still(w, w', a) && Answers(w', a) && WroteNothing(w', a)
    ensures CalmInv(w')
  {
    hide LastWrite;
    assert StoresLast(w'.store);
    hide StoresLast;
    StillHistory(w, w', a);
    hide History, Standing, Follows;
    forall b | b in w'.pcs ensures Answers(w', b) && WroteNothing(w', b) {
      if b != a { assert Answers(w, b) && WroteNothing(w, b); }
    }
  }

  lemma StillHistory(w: World, w': World, a: AttemptId)
    requires History(w) && Still(w, w', a)
    ensures History(w')
  {
    hide LastWrite;
    forall r | 0 <= r < |w'.store.log| ensures Standing(w', r) && Follows(w', r) {
      assert Standing(w, r) && Follows(w, r);
    }
  }

  /** What a write must do to the history: the new account follows from the stored one. */
  ghost predicate GoodWrite(w: World, w': World, a: AttemptId, k: UserId) {
    && |w'.users| == |w.users| + 1 && w'.users[..|w.users|] == w.users
    && w'.store.log == w.store.log + [LogEntry(a, k)]
    && w'.store.committed == w.store.committed[k := |w.store.log|]
    && a in w.pcs && !w.pcs[a].HasSaved() && a in w'.pcs && w'.pcs[a].Saved? && w'.pcs[a].id == k
    && w'.pcs == w.pcs[a := w'.pcs[a]]
    && (forall j :: j in w.minted ==> j in w'.minted && w'.minted[j] == w.minted[j])
    && k in w'.minted && (w'.pcs[a].login.Some? ==> w'.minted[k] == w'.pcs[a].login.value.sub)
    && SameTrackers(w, w', a)
  }

  lemma WriteKeeps(w: World, w': World, a: AttemptId, k: UserId)
    requires CalmInv(w) && GoodWrite(w, w', a, k) && Follows(w', |w.store.log|)
    ensures CalmInv(w')
  {
    WriteHistory(w, w', a, k);
    WriteStoresLast(w, w', a, k);
    hide History, StoresLast, Follows, Standing;
    forall b | b in w'.pcs ensures Answers(w', b) && WroteNothing(w', b) {
      if b != a { assert Answers(w, b) && WroteNothing(w, b); }
    }
  }

  lemma WriteStoresLast(w: World, w': World, a: AttemptId, k: UserId)
    requires StoresLast(w.store) && GoodWrite(w, w', a, k)
    ensures StoresLast(w'.store)
  {
    forall j ensures Get(w'.store.committed, j) == LastWrite(w'.store.log, j, |w'.store.log|) {
      LastWriteOfLonger(w.store.log, LogEntry(a, k), j, |w.store.log|);
    }
  }

  lemma WriteHistory(w: World, w': World, a: AttemptId, k: UserId)
    requires History(w) && GoodWrite(w, w', a, k) && Follows(w', |w.store.log|)
    ensures History(w')
  {
    hide LastWrite;
    forall r | 0 <= r < |w'.store.log| ensures Standing(w', r) && Follows(w', r) {
      if r < |w.store.log| {
        assert Standing(w, r) && Follows(w, r);
        LastWriteOfLonger(w.store.log, LogEntry(a, k), w.store.log[r].key, r);
      }
    }
  }

  /** An update stands right after the account it replaced. */
  lemma UpdateFollows(w: World, w': World, a: AttemptId)
    requires |w.users| == |w.store.log| && StoresLast(w.store) && Updates(w, w', a) && ReplacesLoaded(w, a)
    ensures Follows(w', |w.store.log|)
  {
    var k := LoadedUser(w, a).id;
    LastWriteOfLonger(w.store.log, LogEntry(a, k), k, |w.store.log|);
    hide LastWrite;
    assert LastWrite(w.store.log, k, |w.store.log|) == Some(w.pcs[a].loaded);
  }

  lemma UpdateIsGood(w: World, w': World, a: AttemptId)
    requires Updates(w, w', a) && LoadedUser(w, a).id in w.minted
    requires w.minted[LoadedUser(w, a).id] == LoadedUser(w, a).externalSubject && |w.users| == |w.store.log|
    ensures GoodWrite(w, w', a, LoadedUser(w, a).id)
  {
  }

  lemma CalmUpdate(canon: Canon, w: World, a: AttemptId, newId: UserId)
    requires WorldInv(canon, w) && CalmInv(w) && CanStep(w, Save(a, newId)) && w.pcs[a].HasLoaded()
    ensures CalmInv(NextWorld(canon, w, Save(a, newId)))
  {
    hide WorldInv, NextWorld, History, StoresLast, Follows, Updates, GoodWrite, Moved, WroteNothing, Changed;
    CalmParts(w);
    assert Answers(w, a);
    hide CalmInv;
    var w' := NextWorld(canon, w, Save(a, newId));
    SaveUpdates(canon, w, a, newId);
    MatchReplacesIffKept(canon, w, a);
    AccountMinted(canon, w, w.pcs[a].loaded);
    if GoesThrough(canon, w, a) {
      UpdateIsGood(w, w', a);
      UpdateFollows(w, w', a);
      WriteKeeps(w, w', a, LoadedUser(w, a).id);
    } else {
      ThrowKeeps(w, a);
    }
  }

  lemma ThrowKeeps(w: World, a: AttemptId)
    requires CalmInv(w) && a in w.pcs && !w.pcs[a].HasSaved()
    ensures CalmInv(Moved(w, a, Throwing))
  {
    assert Answers(w, a) && WroteNothing(w, a);
    var w' := Moved(w, a, Throwing);
    hide CalmInv;
    assert Still(w, w', a) && Answers(w', a) && WroteNothing(w', a);
    hide Still, Moved;
    StillKeeps(w, w', a);
  }

  lemma CalmParts(w: World)
    requires CalmInv(w)
    ensures StoresLast(w.store) && History(w)
  {
  }

  lemma AccountMinted(canon: Canon, w: World, r: Instance)
    requires WorldInv(canon, w) && r < |w.users|
    ensures |w.users| == |w.store.log| && w.users[r].id in w.minted && w.minted[w.users[r].id] == w.users[r].externalSubject
  {
  }

  /** A registration stores the account under its new id, or writes nothing. */
  lemma RegisterWrites(canon: Canon, w: World, a: AttemptId, claims: Claims, newId: UserId)
    requires w.store.IsRunning(a) && a in w.pcs && !w.pcs[a].HasSaved() && newId !in w.minted && |w.users| == |w.store.log|
    ensures var w' := AfterRegistering(canon, w, a, claims, newId);
            || (GoodWrite(w, w', a, newId) && w'.users[|w.users|].version == 1 && w'.users[|w.users|].status == Active)
            || w' == Moved(w.(minted := w.minted[newId := claims.sub]), a, Throwing)
            || w' == Moved(w.(minted := w.minted[newId := claims.sub]), a, LostRace(claims))
  {
    hide HasSubject, Remembered;
  }

  /** A registration that only mints an id. */
  lemma MintOnlyKeeps(w: World, a: AttemptId, newId: UserId, sub: string, pc: Pc)
    requires CalmInv(w) && a in w.pcs && !w.pcs[a].HasSaved() && newId !in w.minted && (pc == Throwing || pc.LostRace?)
    ensures CalmInv(Moved(w.(minted := w.minted[newId := sub]), a, pc))
  {
    hide History, StoresLast;
    assert Answers(w, a) && WroteNothing(w, a);
    var w' := Moved(w.(minted := w.minted[newId := sub]), a, pc);
    hide CalmInv;
    assert Still(w, w', a) && Answers(w', a) && WroteNothing(w', a);
    hide Still, Moved, Answers, WroteNothing;
    StillKeeps(w, w', a);
  }

  lemma CalmRegister(canon: Canon, w: World, a: AttemptId, newId: UserId)
    requires WorldInv(canon, w) && CalmInv(w) && CanStep(w, Save(a, newId)) && w.pcs[a].Registering?
    ensures CalmInv(NextWorld(canon, w, Save(a, newId)))
  {
    hide WorldInv, CalmInv, Follows, AfterRegistering, AfterUpdate, GoodWrite, Moved;
    var w' := NextWorld(canon, w, Save(a, newId));
    var claims := w.pcs[a].claims;
    NewIdUnwritten(canon, w, newId);
    RegisterWrites(canon, w, a, claims, newId);
    var w1 := w.(minted := w.minted[newId := claims.sub]);
    if w' == Moved(w1, a, Throwing) {
      MintOnlyKeeps(w, a, newId, claims.sub, Throwing);
    } else if w' == Moved(w1, a, LostRace(claims)) {
      MintOnlyKeeps(w, a, newId, claims.sub, LostRace(claims));
    } else {
      FirstFollows(w, w', a, newId);
      WriteKeeps(w, w', a, newId);
    }
  }

  lemma NewIdUnwritten(canon: Canon, w: World, newId: UserId)
    requires WorldInv(canon, w) && newId !in w.minted
    ensures |w.users| == |w.store.log| && forall r :: 0 <= r < |w.store.log| ==> w.store.log[r].key != newId
  {
  }

  lemma FirstFollows(w: World, w': World, a: AttemptId, k: UserId)
    requires |w.users| == |w.store.log| && GoodWrite(w, w', a, k)
    requires forall r :: 0 <= r < |w.store.log| ==> w.store.log[r].key != k
    requires w'.users[|w.users|].version == 1 && w'.users[|w.users|].status == Active
    ensures Follows(w', |w.store.log|)
  {
    LastWriteOfLonger(w.store.log, LogEntry(a, k), k, |w.store.log|);
  }

  /** A rollback of an attempt that wrote nothing undoes nothing. */
  lemma NothingRestored(s: Store<UserId>, a: AttemptId)
    requires s.IsRunning(a) && s.attempts[a].prior == map[]
    ensures Next(s, Abort(a)).committed == s.committed
  {
    var after := Next(s, Abort(a));
    forall k ensures Get(after.committed, k) == Get(s.committed, k) {
      assert Get(after.committed, k) == RestoredAt(s.committed, s.attempts[a].prior, s.attempts[a].written, k);
    }
    SameMaps(after.committed, s.committed);
  }

  lemma RollBackStill(canon: Canon, w: World, a: AttemptId)
    requires CanStep(w, RollBack(a)) && Next(w.store, Abort(a)).committed == w.store.committed
    ensures Still(w, NextWorld(canon, w, RollBack(a)), a)
  {
    hide Restored, Still;
    var w' := NextWorld(canon, w, RollBack(a));
    assert forall b :: b in w.pcs ==> Marked(w, w.pcs[b], Next(w.store, Abort(a))) == w.pcs[b];
    hide Marked;
    assert w'.pcs == w.pcs[a := Failed];
    MovedIsStill(w, w', a, Failed);
  }

  lemma CalmRollBack(canon: Canon, w: World, a: AttemptId)
    requires CalmInv(w) && CanStep(w, RollBack(a))
    ensures CalmInv(NextWorld(canon, w, RollBack(a)))
  {
    hide Restored, Marked, History, StoresLast, Still;
    assert WroteNothing(w, a);
    hide CalmInv;
    NothingRestored(w.store, a);
    RollBackStill(canon, w, a);
    var w' := NextWorld(canon, w, RollBack(a));
    assert w'.pcs[a] == Failed && a in w'.store.attempts && w'.store.attempts[a].prior == map[];
    hide NextWorld, Next;
    StillKeeps(w, w', a);
  }

  /** A step that moves one attempt and perhaps begins or ends it in the store. */
  lemma MovedIsStill(w: World, w': World, a: AttemptId, pc: Pc)
    requires w'.users == w.users && w'.minted == w.minted && w'.pcs == w.pcs[a := pc]
    requires w'.store.log == w.store.log && w'.store.committed == w.store.committed
    requires forall b :: b in w.store.attempts && b != a ==> b in w'.store.attempts && w'.store.attempts[b] == w.store.attempts[b]
    requires a in w.pcs && w.pcs[a].HasSaved() ==> pc.HasSaved() && pc.id == w.pcs[a].id && pc.login == w.pcs[a].login
    ensures Still(w, w', a)
  {
  }

  /** Steps of one attempt that write nothing. */
  lemma OtherIsStill(canon: Canon, w: World, e: Step)
    requires CanStep(w, e) && CalmStep(w, e) && !e.Save? && !e.RollBack?
    ensures var w' := NextWorld(canon, w, e); Still(w, w', e.attempt)
  {
    hide Finds, Restored, Remembered, Still;
    var w' := NextWorld(canon, w, e);
    MovedIsStill(w, w', e.attempt, w'.pcs[e.attempt]);
  }

  lemma OtherAnswers(canon: Canon, w: World, e: Step)
    requires CanStep(w, e) && CalmStep(w, e) && !e.Save? && !e.RollBack?
    requires e.attempt in w.pcs ==> Answers(w, e.attempt) && WroteNothing(w, e.attempt)
    ensures var w' := NextWorld(canon, w, e);
            e.attempt in w'.pcs && Answers(w', e.attempt) && WroteNothing(w', e.attempt)
  {
    hide Finds, Restored, Remembered;
  }

  lemma CalmOther(canon: Canon, w: World, e: Step)
    requires CalmInv(w) && CanStep(w, e) && CalmStep(w, e) && !e.Save? && !e.RollBack?
    ensures CalmInv(NextWorld(canon, w, e))
  {
    assert e.attempt in w.pcs ==> Answers(w, e.attempt) && WroteNothing(w, e.attempt);
    hide CalmInv, Still, NextWorld, CanStep, Answers, WroteNothing;
    OtherIsStill(canon, w, e);
    OtherAnswers(canon, w, e);
    StillKeeps(w, NextWorld(canon, w, e), e.attempt);
  }

  lemma CalmNext(canon: Canon, w: World, e: Step)
    requires WorldInv(canon, w) && CalmInv(w) && CanStep(w, e) && CalmStep(w, e)
    ensures CalmInv(NextWorld(canon, w, e))
  {
    hide WorldInv, CalmInv, NextWorld;
    match e
    case Save(a, newId) => if w.pcs[a].Registering? { CalmRegister(canon, w, a, newId); } else { CalmUpdate(canon, w, a, newId); }
    case RollBack(a) => CalmRollBack(canon, w, a);
    case _ => CalmOther(canon, w, e);
  }

  lemma {:induction false} CalmReached(canon: Canon, run: seq<Step>, n: nat)
    requires Possible(canon, run) && Calm(canon, run) && n <= |run|
    ensures Possible(canon, run[..n]) && CalmInv(Reached(canon, run[..n]))
    decreases n
  {
    PossiblePrefix(canon, run, n);
    if n == 0 {
      assert run[..0] == [];
    } else {
      CalmReached(canon, run, n - 1);
      assert CalmAt(canon, run, n - 1);
      assert run[..n][..n - 1] == run[..n - 1];
      WorldInvReached(canon, run[..n - 1]);
      hide CalmInv, WorldInv, NextWorld, CanStep;
      CalmNext(canon, Reached(canon, run[..n - 1]), run[n - 1]);
    }
  }

  // ---------------------------------------------------------------------------------------------
  // What such runs promise
  // ---------------------------------------------------------------------------------------------

  lemma CalmAtEnd(canon: Canon, run: seq<Step>)
    requires Possible(canon, run) && Calm(canon, run)
    ensures CalmInv(Reached(canon, run)) && WorldInv(canon, Reached(canon, run))
  {
    assert run[..|run|] == run;
    CalmReached(canon, run, |run|);
    WorldInvReached(canon, run);
  }

  /** An attempt that fails has written nothing, and the writes of one that responds all stand. */
  lemma FailedWritesNothing(canon: Canon, run: seq<Step>, r: Instance)
    requires Possible(canon, run) && Calm(canon, run) && r < |Reached(canon, run).store.log|
    ensures var w := Reached(canon, run); Standing(w, r) && !w.store.IsAborted(w.store.Writer(r))
  {
    var w := Reached(canon, run);
    CalmAtEnd(canon, run);
    hide Reached, Possible, Calm;
    assert Standing(w, r) && PcFits(w, w.store.Writer(r));
  }

  /**
   The stored account is the last one written, its version counts the writes since the account was added at
   version 1, and each write follows from the account stored just before it: a login found it Active and left
   it Active, so no login undoes a suspension.
   */
  lemma VersionsCountWrites(canon: Canon, run: seq<Step>, k: UserId)
    requires Possible(canon, run) && Calm(canon, run)
    ensures var w := Reached(canon, run);
            && Get(w.store.committed, k) == LastWrite(w.store.log, k, |w.store.log|)
            && History(w)
            && (k in w.store.committed ==>
                  w.store.committed[k] < |w.users| && w.users[w.store.committed[k]].version == Writes(w.store.log, k, |w.store.log|))
  {
    var w := Reached(canon, run);
    CalmAtEnd(canon, run);
    hide Reached, Possible, Calm, WorldInv;
    assert StoresLast(w.store);
    VersionIsWrites(w, k, |w.store.log|);
  }

  lemma {:induction false} VersionIsWrites(w: World, k: UserId, n: nat)
    requires History(w) && n <= |w.store.log|
    ensures match LastWrite(w.store.log, k, n)
            case None => Writes(w.store.log, k, n) == 0
            case Some(r) => w.users[r].version == Writes(w.store.log, k, n)
  {
    if n > 0 {
      VersionIsWrites(w, k, n - 1);
      assert Standing(w, n - 1) && Follows(w, n - 1);
    }
  }

  /** In such runs every update that goes through replaces exactly the instance its writer had loaded. */
  lemma EveryUpdateReplacesLoaded(canon: Canon, run: seq<Step>, a: AttemptId, newId: UserId)
    requires Possible(canon, run) && Calm(canon, run)
    requires CanStep(Reached(canon, run), Save(a, newId)) && Reached(canon, run).pcs[a].HasLoaded()
    ensures var w := Reached(canon, run);
            GoesThrough(canon, w, a) ==> Updates(w, NextWorld(canon, w, Save(a, newId)), a) && ReplacesLoaded(w, a)
  {
    CalmAtEnd(canon, run);
    assert Answers(Reached(canon, run), a);
    hide Calm, CalmInv, WorldInv, NextWorld, Updates, Possible, Reached, CanStep, Changed;
    UpdateReplacesLoadedIff(canon, run, a, newId);
  }
}
