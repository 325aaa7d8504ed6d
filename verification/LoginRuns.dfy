/**
 Logins and status changes over the in-memory unit of work, interleaved at every await
 (authenticate.ts:85-142, fake-iam-unit-of-work.ts:107-151, 235-263).
 */
module LoginRuns {
  import opened Wrappers
  import opened Users
  import opened RollbackStore

  /** Where one attempt stands. Each repository call is one step. */
  datatype Pc =
    | LookUp(claims: Claims)
    | Registering(claims: Claims)
    | LostRace(claims: Claims)
    /** `taken`: since the account was read, a rollback has taken the loaded instance away. */
    | LoggingIn(claims: Claims, loaded: Instance, taken: bool)
    | LookUpById(id: UserId, target: Status)
    | ChangingStatus(target: Status, loaded: Instance, taken: bool)
    | Saved(id: UserId, login: Option<Claims>)
    | Throwing
    | Responded(id: UserId, login: Option<Claims>)
    | Failed
  {
    predicate HasLoaded() { LoggingIn? || ChangingStatus? }
    predicate IsOver() { Responded? || Failed? }
    predicate HasSaved() { Saved? || Responded? }
  }

  /** `users[r]` is the account stored by instance `r`; `minted` records what each generated id was made for. */
  datatype World = World(store: Store<UserId>, users: seq<User>, pcs: map<AttemptId, Pc>, minted: map<UserId, string>)

  datatype Step =
    | StartLogin(attempt: AttemptId, claims: Claims)
    | StartStatusChange(attempt: AttemptId, id: UserId, target: Status)
    | Read(attempt: AttemptId, found: Option<Instance>)
    | Save(attempt: AttemptId, newId: UserId)
    | Throw(attempt: AttemptId)
    | Finish(attempt: AttemptId)
    | RollBack(attempt: AttemptId)

  ghost predicate HasSubject(w: World, k: UserId, sub: string) {
    k in w.store.committed && w.store.committed[k] < |w.users| && w.users[w.store.committed[k]].externalSubject == sub
  }

  /** What `findByExternalSubject` may answer: a stored account with the subject, or none when there is none. */
  ghost predicate Finds(w: World, sub: string, found: Option<Instance>) {
    match found
    case Some(r) => exists k :: HasSubject(w, k, sub) && w.store.committed[k] == r
    case None => forall k :: !HasSubject(w, k, sub)
  }

  ghost predicate CanStep(w: World, e: Step) {
    match e
    case StartLogin(a, _) => a !in w.pcs && a !in w.store.attempts
    case StartStatusChange(a, _, _) => a !in w.pcs && a !in w.store.attempts
    case Read(a, found) =>
      a in w.pcs &&
      (match w.pcs[a]
       case LookUp(claims) => Finds(w, claims.sub, found)
       case LostRace(claims) => Finds(w, claims.sub, found)
       case LookUpById(id, _) => found == Get(w.store.committed, id)
       case _ => false)
    case Save(a, newId) =>
      && a in w.pcs && w.store.IsRunning(a)
      && (w.pcs[a].Registering? || w.pcs[a].HasLoaded())
      && (w.pcs[a].Registering? ==> newId !in w.minted)
      && (w.pcs[a].HasLoaded() ==> w.pcs[a].loaded < |w.users|)
    case Throw(a) => a in w.pcs && !w.pcs[a].IsOver() && w.pcs[a] != Throwing
    case Finish(a) => a in w.pcs && w.pcs[a].Saved? && w.store.IsRunning(a)
    case RollBack(a) => a in w.pcs && w.pcs[a] == Throwing && w.store.IsRunning(a)
  }

  /** The optimistic-concurrency guard of `updateUser`: the stored version is the incoming one. */
  ghost predicate VersionMatches(w: World, u: User) {
    u.id in w.store.committed && w.store.committed[u.id] < |w.users| && w.users[w.store.committed[u.id]].version == u.version
  }

  ghost function Moved(w: World, a: AttemptId, pc: Pc): World { w.(pcs := w.pcs[a := pc]) }

  /** A write of `u`, visible at once. */
  ghost function Written(w: World, a: AttemptId, u: User, pc: Pc): World
    requires w.store.IsRunning(a)
  {
    World(Next(w.store, Put(a, u.id)), w.users + [u], w.pcs[a := pc], w.minted)
  }

  ghost function AfterRegistering(canon: Canon, w: World, a: AttemptId, claims: Claims, newId: UserId): World
    requires w.store.IsRunning(a)
  {
    var w1 := w.(minted := w.minted[newId := claims.sub]);
    match Register(canon, newId, claims)
    case Failure(_) => Moved(w1, a, Throwing)
    case Success(u) =>
      if exists k :: HasSubject(w, k, u.externalSubject) then Moved(w1, a, LostRace(claims))
      else Written(w1, a, u, Saved(newId, Some(claims)))
  }

  ghost function AfterUpdate(w: World, a: AttemptId, changed: Result<User, UserError>, login: Option<Claims>): World
    requires w.store.IsRunning(a)
  {
    match changed
    case Failure(_) => Moved(w, a, Throwing)
    case Success(u) =>
      if VersionMatches(w, u) then Written(w, a, u.(version := u.version + 1), Saved(u.id, login))
      else Moved(w, a, Throwing)
  }

  /** Whether the loaded instance was the stored one and no longer is. */
  ghost predicate TakesLoaded(w: World, loaded: Instance, after: Store<UserId>) {
    loaded < |w.users| && Get(w.store.committed, w.users[loaded].id) == Some(loaded)
    && Get(after.committed, w.users[loaded].id) != Some(loaded)
  }

  ghost function Marked(w: World, pc: Pc, after: Store<UserId>): Pc {
    match pc
    case LoggingIn(claims, loaded, taken) => LoggingIn(claims, loaded, taken || TakesLoaded(w, loaded, after))
    case ChangingStatus(target, loaded, taken) => ChangingStatus(target, loaded, taken || TakesLoaded(w, loaded, after))
    case _ => pc
  }

  ghost function NextWorld(canon: Canon, w: World, e: Step): World
    requires CanStep(w, e)
  {
    match e
    case StartLogin(a, claims) => Moved(w.(store := Next(w.store, Begin(a))), a, LookUp(claims))
    case StartStatusChange(a, id, target) => Moved(w.(store := Next(w.store, Begin(a))), a, LookUpById(id, target))
    case Read(a, found) =>
      (match w.pcs[a]
       case LookUp(claims) => Moved(w, a, if found.Some? then LoggingIn(claims, found.value, false) else Registering(claims))
       case LostRace(claims) => Moved(w, a, if found.Some? then LoggingIn(claims, found.value, false) else Throwing)
       case LookUpById(id, target) => Moved(w, a, if found.Some? then ChangingStatus(target, found.value, false) else Throwing)
       case _ => w)
    case Save(a, newId) =>
      (match w.pcs[a]
       case Registering(claims) => AfterRegistering(canon, w, a, claims, newId)
       case LoggingIn(claims, r, _) => AfterUpdate(w, a, w.users[r].LogIn(canon, claims), Some(claims))
       case ChangingStatus(target, r, _) => AfterUpdate(w, a, w.users[r].WithStatus(canon, target), None)
       case _ => w)
    case Throw(a) => Moved(w, a, Throwing)
    case Finish(a) => Moved(w.(store := Next(w.store, Commit(a))), a, Responded(w.pcs[a].id, w.pcs[a].login))
    case RollBack(a) =>
      var after := Next(w.store, Abort(a));
      World(after, w.users, (map b | b in w.pcs :: Marked(w, w.pcs[b], after))[a := Failed], w.minted)
  }

  ghost function Start(): World { World(Initial(), [], map[], map[]) }

  ghost predicate Possible(canon: Canon, run: seq<Step>)
    decreases |run|, 0
  {
    run == [] || (var n := |run| - 1; Possible(canon, run[..n]) && CanStep(Reached(canon, run[..n]), run[n]))
  }

  ghost function Reached(canon: Canon, run: seq<Step>): World
    requires Possible(canon, run)
    decreases |run|, 1
  {
    if run == [] then Start() else
    var n := |run| - 1;
    NextWorld(canon, Reached(canon, run[..n]), run[n])
  }

  lemma {:induction false} PossiblePrefix(canon: Canon, run: seq<Step>, n: nat)
    requires Possible(canon, run) && n <= |run|
    ensures Possible(canon, run[..n])
    decreases |run| - n
  {
    if n == |run| {
      assert run[..n] == run;
    } else {
      PossiblePrefix(canon, run, n + 1);
      assert run[..n + 1][..n] == run[..n];
    }
  }

  lemma Continue(canon: Canon, run: seq<Step>, e: Step)
    requires Possible(canon, run) && CanStep(Reached(canon, run), e)
    ensures Possible(canon, run + [e]) && Reached(canon, run + [e]) == NextWorld(canon, Reached(canon, run), e)
  {
    assert (run + [e])[..|run|] == run;
  }

  // ---------------------------------------------------------------------------------------------
  // The accounts a stored one was built on
  // ---------------------------------------------------------------------------------------------

  /** What was stored when instance `r` was written; an attempt writes an account only once. */
  ghost function PriorOf(s: Store<UserId>, r: Instance): Option<Instance>
    requires r < |s.log|
  {
    var a, k := s.log[r].attempt, s.log[r].key;
    if a in s.attempts && k in s.attempts[a].prior then s.attempts[a].prior[k] else None
  }

  /** Instance `r` is `top`, or was stored when an instance on the way down from `top` was written. */
  ghost predicate OnChain(s: Store<UserId>, r: Instance, top: Option<Instance>)
    decreases if top.Some? then top.value + 1 else 0
  {
    top.Some? && top.value < |s.log| &&
    (top.value == r ||
     (var p := PriorOf(s, top.value); p.Some? && p.value < top.value && OnChain(s, r, p)))
  }

  lemma {:induction false} SameChain(s: Store<UserId>, s': Store<UserId>, r: Instance, top: Option<Instance>)
    requires SamePriors(s, s') && (top.Some? ==> top.value < |s.log|)
    ensures OnChain(s', r, top) <==> OnChain(s, r, top)
    decreases if top.Some? then top.value + 1 else 0
  {
    if top.Some? {
      var p := PriorOf(s, top.value);
      if p.Some? && p.value < top.value { SameChain(s, s', r, p); }
    }
  }

  /** Both stores agree on what each instance of the first was built on. */
  ghost predicate SamePriors(s: Store<UserId>, s': Store<UserId>) {
    |s.log| <= |s'.log| && forall r :: 0 <= r < |s.log| ==> PriorOf(s', r) == PriorOf(s, r)
  }

  // ---------------------------------------------------------------------------------------------
  // What every step keeps, aborts included
  // ---------------------------------------------------------------------------------------------

  /** Instances hold valid accounts, under the id and subject they were minted for. */
  ghost predicate Accounts(canon: Canon, w: World) {
    && |w.users| == |w.store.log|
    && forall r :: 0 <= r < |w.users| ==>
         && w.users[r].Valid(canon) && w.users[r].id == w.store.log[r].key
         && w.users[r].id in w.minted && w.minted[w.users[r].id] == w.users[r].externalSubject
  }

  /** No two stored accounts share a subject. */
  ghost predicate UniqueSubjects(w: World) {
    forall j, k, sub :: HasSubject(w, j, sub) && HasSubject(w, k, sub) ==> j == k
  }

  ghost predicate PcsFit(w: World) {
    && w.pcs.Keys == w.store.attempts.Keys
    && forall a :: a in w.pcs ==> PcFits(w, a)
  }

  ghost predicate PcFits(w: World, a: AttemptId)
    requires a in w.pcs && a in w.store.attempts
  {
    && (w.pcs[a].Responded? <==> w.store.attempts[a].phase == Committed)
    && (w.pcs[a].Failed? <==> w.store.attempts[a].phase == Aborted)
    && (w.pcs[a].HasLoaded() ==> w.pcs[a].loaded < |w.users|)
    && (w.pcs[a].LoggingIn? && w.pcs[a].loaded < |w.users| ==> w.users[w.pcs[a].loaded].externalSubject == w.pcs[a].claims.sub)
  }

  /** Until it is taken away the loaded instance is one the stored account was built on, and afterwards it never is again. */
  ghost predicate Chained(w: World, a: AttemptId)
    requires a in w.pcs
  {
    var pc := w.pcs[a];
    pc.HasLoaded() && pc.loaded < |w.users| ==>
      (pc.taken <==> !OnChain(w.store, pc.loaded, Get(w.store.committed, w.users[pc.loaded].id)))
  }

  /** Each account is the next version of the one it was built on. */
  ghost predicate Rising(w: World) {
    forall r :: 0 <= r < |w.users| && r < |w.store.log| && PriorOf(w.store, r).Some? && PriorOf(w.store, r).value < r ==>
      w.users[r].version == w.users[PriorOf(w.store, r).value].version + 1
  }

  /** An attempt writes only in its save, under the id it answers with, minted for the subject that logged in. */
  ghost predicate Tracks(w: World, a: AttemptId)
    requires a in w.pcs
  {
    && a in w.store.attempts
    && (!w.pcs[a].HasSaved() && !w.pcs[a].Throwing? && !w.pcs[a].Failed? ==>
          w.store.attempts[a].prior == map[] && w.store.attempts[a].written == map[])
    && (w.pcs[a].HasSaved() ==> w.pcs[a].id in w.store.attempts[a].written && w.pcs[a].id in w.minted)
    && (w.pcs[a].HasSaved() && w.pcs[a].id in w.minted && w.pcs[a].login.Some? ==>
          w.minted[w.pcs[a].id] == w.pcs[a].login.value.sub)
  }

  ghost predicate WorldInv(canon: Canon, w: World) {
    && Inv(w.store) && Accounts(canon, w) && UniqueSubjects(w) && PcsFit(w) && Rising(w)
    && (forall a :: a in w.pcs ==> Chained(w, a) && Tracks(w, a))
  }

  /** What makes a write safe: a valid account of its minted subject, either new or the next version of the stored one. */
  ghost predicate SafeWrite(canon: Canon, w: World, a: AttemptId, u: User) {
    && a in w.pcs && w.store.IsRunning(a) && w.store.attempts[a].prior == map[] && w.store.attempts[a].written == map[]
    && u.Valid(canon) && u.id in w.minted && w.minted[u.id] == u.externalSubject
    && (|| ((forall k :: !HasSubject(w, k, u.externalSubject)) && forall r :: 0 <= r < |w.users| ==> w.users[r].id != u.id)
        || (u.id in w.store.committed && w.store.committed[u.id] < |w.users|
            && u.version == w.users[w.store.committed[u.id]].version + 1))
  }

  /** A state that differs only in where attempt `a` stands, and perhaps in newly minted ids. */
  ghost predicate SameAccounts(w: World, w': World, a: AttemptId) {
    && w'.users == w.users && w'.store.log == w.store.log && w'.store.committed == w.store.committed
    && (forall k :: k in w.minted ==> k in w'.minted && w'.minted[k] == w.minted[k])
    && w'.pcs.Keys == w.pcs.Keys + {a} && (forall b :: b in w.pcs && b != a ==> w'.pcs[b] == w.pcs[b])
  }

  /** Nor has any tracker but that of `a` moved. */
  ghost predicate Quiet(w: World, w': World, a: AttemptId) {
    && SameAccounts(w, w', a)
    && (forall b :: b in w.store.attempts && b != a ==> b in w'.store.attempts && w'.store.attempts[b] == w.store.attempts[b])
    && SamePriors(w.store, w'.store)
  }

  lemma CommittedAccount(canon: Canon, w: World, k: UserId)
    requires Tidy(w.store) && Accounts(canon, w) && k in w.store.committed
    ensures w.store.committed[k] < |w.users|
    ensures var u := w.users[w.store.committed[k]];
            u.id == k && k in w.minted && HasSubject(w, k, w.minted[k]) && u.externalSubject == w.minted[k]
  {
  }

  // Steps that write nothing

  lemma QuietKeeps(canon: Canon, w: World, w': World, a: AttemptId)
    requires Tidy(w.store) && Accounts(canon, w) && UniqueSubjects(w) && Rising(w)
    requires forall b :: b in w.pcs ==> Chained(w, b) && Tracks(w, b)
    requires Quiet(w, w', a) && Chained(w', a) && Tracks(w', a)
    ensures Accounts(canon, w') && UniqueSubjects(w') && Rising(w')
    ensures forall b :: b in w'.pcs ==> Chained(w', b) && Tracks(w', b)
  {
    assert Rising(w');
    forall b | b in w'.pcs ensures Chained(w', b) && Tracks(w', b) {
      if b != a { QuietKeepsOne(w, w', a, b); }
    }
    hide Tidy, Chained, Tracks, Rising;
    forall j, k, sub | HasSubject(w', j, sub) && HasSubject(w', k, sub) ensures j == k {
      assert HasSubject(w, j, sub) && HasSubject(w, k, sub);
    }
  }

  lemma QuietKeepsOne(w: World, w': World, a: AttemptId, b: AttemptId)
    requires Tidy(w.store) && Quiet(w, w', a) && b in w.pcs && b != a && Chained(w, b) && Tracks(w, b)
    ensures Chained(w', b) && Tracks(w', b)
  {
    var pc := w.pcs[b];
    if pc.HasLoaded() && pc.loaded < |w.users| {
      SameChain(w.store, w'.store, pc.loaded, Get(w.store.committed, w.users[pc.loaded].id));
    }
    hide Tidy, OnChain, SamePriors;
  }

  // Steps that write

  lemma WrittenAccounts(canon: Canon, w: World, a: AttemptId, u: User, pc: Pc)
    requires Accounts(canon, w) && SafeWrite(canon, w, a, u)
    ensures Accounts(canon, Written(w, a, u, pc))
  {
  }

  lemma WrittenUnique(canon: Canon, w: World, a: AttemptId, u: User, pc: Pc)
    requires Tidy(w.store) && Accounts(canon, w) && UniqueSubjects(w) && SafeWrite(canon, w, a, u)
    ensures UniqueSubjects(Written(w, a, u, pc))
  {
    var w' := Written(w, a, u, pc);
    if u.id in w.store.committed { CommittedAccount(canon, w, u.id); }
    forall k, sub | HasSubject(w', k, sub)
      ensures if k == u.id then sub == u.externalSubject else HasSubject(w, k, sub)
    {
    }
    hide Tidy, Accounts;
    forall j, k, sub | HasSubject(w', j, sub) && HasSubject(w', k, sub) ensures j == k {
    }
  }

  /** A write stands on what was stored, and changes nothing below. */
  lemma PutChains(s: Store<UserId>, a: AttemptId, k: UserId)
    requires Tidy(s) && s.IsRunning(a) && s.attempts[a].prior == map[] && s.attempts[a].written == map[]
    ensures var s' := Next(s, Put(a, k));
            && SamePriors(s, s') && |s'.log| == |s.log| + 1 && PriorOf(s', |s.log|) == Get(s.committed, k)
            && s'.committed == s.committed[k := |s.log|]
  {
    hide Restored;
  }

  lemma WrittenRises(canon: Canon, w: World, a: AttemptId, u: User, pc: Pc)
    requires Tidy(w.store) && Accounts(canon, w) && Rising(w) && SafeWrite(canon, w, a, u)
    ensures Rising(Written(w, a, u, pc))
  {
    PutChains(w.store, a, u.id);
    if u.id in w.store.committed { CommittedAccount(canon, w, u.id); }
    hide Next, PriorOf, Tidy;
  }

  lemma WrittenChained(canon: Canon, w: World, a: AttemptId, u: User, pc: Pc, b: AttemptId)
    requires Tidy(w.store) && |w.users| == |w.store.log| && SafeWrite(canon, w, a, u) && !pc.HasLoaded()
    requires b in Written(w, a, u, pc).pcs && (b in w.pcs ==> Chained(w, b))
    requires b in w.pcs && w.pcs[b].HasLoaded() ==> w.pcs[b].loaded < |w.users|
    ensures Chained(Written(w, a, u, pc), b)
  {
    var w' := Written(w, a, u, pc);
    var at := w'.pcs[b];
    if b != a && at.HasLoaded() && at.loaded < |w.users| {
      var k := w.users[at.loaded].id;
      PutChains(w.store, a, u.id);
      hide SafeWrite, Next, PriorOf;
      SameChain(w.store, w'.store, at.loaded, Get(w.store.committed, k));
      hide Tidy;
      TopOfChain(w'.store, at.loaded, |w.store.log|, Get(w.store.committed, u.id));
      hide OnChain;
    }
  }

  /** An instance other than the top is on the chain when it is on the chain of what the top stands on. */
  lemma TopOfChain(s: Store<UserId>, r: Instance, top: Instance, below: Option<Instance>)
    requires top < |s.log| && PriorOf(s, top) == below && (below.Some? ==> below.value < top)
    ensures OnChain(s, r, Some(top)) <==> r == top || OnChain(s, r, below)
  {
  }

  lemma WrittenTracks(canon: Canon, w: World, a: AttemptId, u: User, login: Option<Claims>, b: AttemptId)
    requires SafeWrite(canon, w, a, u) && (login.Some? ==> login.value.sub == u.externalSubject)
    requires b in Written(w, a, u, Saved(u.id, login)).pcs && (b in w.pcs ==> Tracks(w, b))
    ensures Tracks(Written(w, a, u, Saved(u.id, login)), b)
  {
    hide HasSubject, Remembered;
  }

  // Rollbacks

  lemma RolledBackAt(w: World, a: AttemptId, k: UserId)
    requires Tidy(w.store) && w.store.IsRunning(a)
    ensures var after := Next(w.store, Abort(a)).committed;
            k in after ==> k in w.store.committed && after[k] < |w.store.log| && w.store.log[after[k]].key == k
  {
    AbortEffect(w.store, a);
    assert TidyAttempt(w.store, a);
    var t := w.store.attempts[a];
    assert Get(Next(w.store, Abort(a)).committed, k) == RestoredAt(w.store.committed, t.prior, t.written, k);
    hide Next;
  }

  lemma AbortChains(s: Store<UserId>, a: AttemptId)
    requires s.IsRunning(a)
    ensures var s' := Next(s, Abort(a));
            && s'.log == s.log && SamePriors(s, s')
            && s'.attempts == s.attempts[a := s.attempts[a].(phase := Aborted)]
  {
    hide Restored;
  }

  /** A rollback leaves a key alone, or takes its instance away and leaves what that was written over. */
  lemma AbortPops(s: Store<UserId>, a: AttemptId, k: UserId)
    requires Tidy(s) && s.IsRunning(a)
    ensures var before, after := Get(s.committed, k), Get(Next(s, Abort(a)).committed, k);
            && (before.Some? ==> before.value < |s.log|)
            && (after != before ==> before.Some? && PriorOf(s, before.value) == after)
            && (after != before && after.Some? ==> after.value < before.value)
  {
    AbortEffect(s, a);
    assert TidyAttempt(s, a);
    var t := s.attempts[a];
    assert Get(Next(s, Abort(a)).committed, k) == RestoredAt(s.committed, t.prior, t.written, k);
    hide Next;
  }

  lemma RollBackKeeps(canon: Canon, w: World, a: AttemptId)
    requires Tidy(w.store) && Accounts(canon, w) && UniqueSubjects(w) && Rising(w) && CanStep(w, RollBack(a))
    ensures var w' := NextWorld(canon, w, RollBack(a));
            Accounts(canon, w') && UniqueSubjects(w') && Rising(w')
  {
    var w' := NextWorld(canon, w, RollBack(a));
    AbortEffect(w.store, a);
    AbortChains(w.store, a);
    assert Rising(w');
    hide Next, Rising, PriorOf;
    forall k, sub | HasSubject(w', k, sub) ensures HasSubject(w, k, sub) {
      RolledBackAt(w, a, k);
      CommittedAccount(canon, w, k);
    }
    forall j, k, sub | HasSubject(w', j, sub) && HasSubject(w', k, sub) ensures j == k {
      assert HasSubject(w, j, sub) && HasSubject(w, k, sub);
    }
  }

  /** An account leaves the chain in a rollback exactly when it is the one taken away. */
  lemma RollBackChained(w: World, a: AttemptId, r: Instance)
    requires Tidy(w.store) && w.store.IsRunning(a) && r < |w.users|
    ensures var s, s' := w.store, Next(w.store, Abort(a));
            var k := w.users[r].id;
            OnChain(s', r, Get(s'.committed, k)) <==> OnChain(s, r, Get(s.committed, k)) && !TakesLoaded(w, r, s')
  {
    hide Next, PriorOf, Tidy;
    var s, s' := w.store, Next(w.store, Abort(a));
    var before, after := Get(s.committed, w.users[r].id), Get(s'.committed, w.users[r].id);
    AbortChains(s, a);
    AbortPops(s, a, w.users[r].id);
    if after == before {
      SameChain(s, s', r, before);
    } else {
      SameChain(s, s', r, after);
      TopOfChain(s, r, before.value, after);
      if OnChain(s, r, after) { BelowTop(s, r, after); }
    }
    hide OnChain;
  }

  lemma {:induction false} BelowTop(s: Store<UserId>, r: Instance, top: Option<Instance>)
    requires OnChain(s, r, top)
    ensures r <= top.value
    decreases if top.Some? then top.value + 1 else 0
  {
    if top.value != r { BelowTop(s, r, PriorOf(s, top.value)); }
  }

  lemma RollBackKeepsOne(canon: Canon, w: World, a: AttemptId, b: AttemptId)
    requires Tidy(w.store) && CanStep(w, RollBack(a)) && b in w.pcs && Chained(w, b) && Tracks(w, b) && Tracks(w, a)
    ensures var w' := NextWorld(canon, w, RollBack(a)); Chained(w', b) && Tracks(w', b)
  {
    hide Next, Tidy, OnChain, TakesLoaded, SamePriors;
    AbortChains(w.store, a);
    var pc := w.pcs[b];
    if pc.HasLoaded() && pc.loaded < |w.users| { RollBackChained(w, a, pc.loaded); }
  }

  // Each kind of step

  /** Other attempts stand where they stood; the store may have grown. */
  lemma OthersFit(w: World, w': World, a: AttemptId)
    requires PcsFit(w) && w'.pcs.Keys == w'.store.attempts.Keys == w.pcs.Keys + {a}
    requires forall b :: b in w.pcs && b != a ==>
               w'.store.attempts[b].phase == w.store.attempts[b].phase &&
               (w'.pcs[b] == w.pcs[b] || exists after :: w'.pcs[b] == Marked(w, w.pcs[b], after))
    requires w.users <= w'.users && PcFits(w', a)
    ensures PcsFit(w')
  {
    forall b | b in w'.pcs ensures PcFits(w', b) {
      if b != a { assert PcFits(w, b); }
    }
  }

  /** A move that leaves the store alone keeps the invariant, given what the new position promises. */
  lemma MovedKeeps(canon: Canon, w: World, w': World, a: AttemptId)
    requires WorldInv(canon, w) && a in w.pcs && Quiet(w, w', a) && w'.store == w.store
    requires PcFits(w', a) && Chained(w', a) && Tracks(w', a)
    ensures WorldInv(canon, w')
  {
    hide PcFits, Inv, Accounts, UniqueSubjects, PcsFit, Rising, Chained, Tracks;
    TidyOf(w.store);
    MovedFits(w, w', a);
    hide Quiet;
    QuietKeeps(canon, w, w', a);
  }

  lemma MovedFits(w: World, w': World, a: AttemptId)
    requires PcsFit(w) && a in w.pcs && Quiet(w, w', a) && w'.store == w.store && PcFits(w', a)
    ensures PcsFit(w')
  {
    hide Marked, PcFits;
    OthersFit(w, w', a);
  }

  lemma WrittenKeeps(canon: Canon, w: World, a: AttemptId, u: User, login: Option<Claims>)
    requires WorldInv(canon, w) && SafeWrite(canon, w, a, u) && (login.Some? ==> login.value.sub == u.externalSubject)
    ensures WorldInv(canon, Written(w, a, u, Saved(u.id, login)))
  {
    hide Inv, Accounts, UniqueSubjects, Rising, PcsFit, Chained, Tracks;
    var pc := Saved(u.id, login);
    var w' := Written(w, a, u, pc);
    TidyOf(w.store);
    OnePerInstance(canon, w);
    LoadedInRange(w);
    WrittenFits(canon, w, a, u, pc);
    WrittenAccounts(canon, w, a, u, pc);
    WrittenUnique(canon, w, a, u, pc);
    WrittenRises(canon, w, a, u, pc);
    forall b | b in w'.pcs ensures Chained(w', b) && Tracks(w', b) {
      WrittenChained(canon, w, a, u, pc, b);
      WrittenTracks(canon, w, a, u, login, b);
    }
    InvNext(w.store, Put(a, u.id));
    hide SafeWrite, Next;
  }

  lemma LoadedInRange(w: World)
    requires PcsFit(w)
    ensures forall b :: b in w.pcs && w.pcs[b].HasLoaded() ==> w.pcs[b].loaded < |w.users|
  {
    assert forall b :: b in w.pcs ==> PcFits(w, b);
  }

  lemma OnePerInstance(canon: Canon, w: World)
    requires Accounts(canon, w)
    ensures |w.users| == |w.store.log|
  {
  }

  lemma WrittenFits(canon: Canon, w: World, a: AttemptId, u: User, pc: Pc)
    requires PcsFit(w) && SafeWrite(canon, w, a, u) && pc.Saved?
    ensures PcsFit(Written(w, a, u, pc))
  {
    var w' := Written(w, a, u, pc);
    hide Marked, HasSubject, Remembered;
    assert PcFits(w', a);
    hide SafeWrite;
    OthersFit(w, w', a);
  }

  lemma StartFits(w: World, a: AttemptId, pc: Pc)
    requires PcsFit(w) && a !in w.store.attempts && (pc.LookUp? || pc.LookUpById?)
    ensures PcsFit(Moved(w.(store := Next(w.store, Begin(a))), a, pc))
  {
    hide Marked;
    OthersFit(w, Moved(w.(store := Next(w.store, Begin(a))), a, pc), a);
  }

  lemma StartKeeps(canon: Canon, w: World, a: AttemptId, pc: Pc)
    requires WorldInv(canon, w) && a !in w.pcs && a !in w.store.attempts && (pc.LookUp? || pc.LookUpById?)
    ensures WorldInv(canon, Moved(w.(store := Next(w.store, Begin(a))), a, pc))
  {
    hide Inv, Accounts, UniqueSubjects, PcsFit, Rising;
    var w' := Moved(w.(store := Next(w.store, Begin(a))), a, pc);
    TidyOf(w.store);
    InvNext(w.store, Begin(a));
    StartFits(w, a, pc);
    StartQuiet(w, a, pc);
    hide Quiet, Chained, Tracks;
    QuietKeeps(canon, w, w', a);
  }

  lemma StartQuiet(w: World, a: AttemptId, pc: Pc)
    requires Tidy(w.store) && a !in w.pcs && a !in w.store.attempts && (pc.LookUp? || pc.LookUpById?)
    ensures var w' := Moved(w.(store := Next(w.store, Begin(a))), a, pc);
            Quiet(w, w', a) && Chained(w', a) && Tracks(w', a)
  {
  }

  lemma TidyOf(s: Store<UserId>)
    requires Inv(s)
    ensures Tidy(s)
  {
  }

  lemma RunningPc(canon: Canon, w: World, a: AttemptId)
    requires WorldInv(canon, w) && a in w.pcs && !w.pcs[a].IsOver()
    ensures w.store.IsRunning(a)
  {
    assert PcFits(w, a);
  }

  /** A running attempt moves on without writing; an account it has just loaded is the stored one. */
  lemma MoveTo(canon: Canon, w: World, a: AttemptId, pc: Pc)
    requires WorldInv(canon, w) && a in w.pcs && w.store.IsRunning(a) && !pc.IsOver() && !pc.HasSaved()
    requires pc != Throwing ==> !w.pcs[a].HasSaved() && w.pcs[a] != Throwing && !w.pcs[a].IsOver()
    requires pc.HasLoaded() ==>
               && pc.loaded < |w.users| && Get(w.store.committed, w.users[pc.loaded].id) == Some(pc.loaded) && !pc.taken
               && (pc.LoggingIn? ==> w.users[pc.loaded].externalSubject == pc.claims.sub)
    ensures WorldInv(canon, Moved(w, a, pc))
  {
    hide WorldInv, Accounts;
    WorldParts(canon, w, a);
    OnePerInstance(canon, w);
    MovedHere(w, a, pc);
    hide PcFits, Chained, Tracks, Quiet, Moved;
    MovedKeeps(canon, w, Moved(w, a, pc), a);
  }

  lemma MovedHere(w: World, a: AttemptId, pc: Pc)
    requires a in w.pcs && w.store.IsRunning(a) && !pc.IsOver() && !pc.HasSaved() && Tracks(w, a) && |w.users| == |w.store.log|
    requires pc != Throwing ==> !w.pcs[a].HasSaved() && w.pcs[a] != Throwing && !w.pcs[a].IsOver()
    requires pc.HasLoaded() ==>
               && pc.loaded < |w.users| && Get(w.store.committed, w.users[pc.loaded].id) == Some(pc.loaded) && !pc.taken
               && (pc.LoggingIn? ==> w.users[pc.loaded].externalSubject == pc.claims.sub)
    ensures var w' := Moved(w, a, pc); PcFits(w', a) && Chained(w', a) && Tracks(w', a) && Quiet(w, w', a)
  {
  }

  /** An account that was just read is as fresh as can be. */
  lemma ReadKeeps(canon: Canon, w: World, a: AttemptId, found: Option<Instance>)
    requires WorldInv(canon, w) && CanStep(w, Read(a, found))
    ensures WorldInv(canon, NextWorld(canon, w, Read(a, found)))
  {
    hide WorldInv;
    RunningPc(canon, w, a);
    if found.Some? { ReadAccount(canon, w, a, found.value); }
    hide Finds;
    MoveTo(canon, w, a, NextWorld(canon, w, Read(a, found)).pcs[a]);
  }

  lemma ReadAccount(canon: Canon, w: World, a: AttemptId, r: Instance)
    requires WorldInv(canon, w) && CanStep(w, Read(a, Some(r)))
    ensures r < |w.users| && Get(w.store.committed, w.users[r].id) == Some(r)
    ensures w.pcs[a].LookUp? || w.pcs[a].LostRace? ==> w.users[r].externalSubject == w.pcs[a].claims.sub
  {
    hide UniqueSubjects, PcsFit, Rising, Chained, Tracks;
    if w.pcs[a].LookUpById? {
      CommittedAccount(canon, w, w.pcs[a].id);
    } else {
      var k :| HasSubject(w, k, w.pcs[a].claims.sub) && w.store.committed[k] == r;
      CommittedAccount(canon, w, k);
    }
  }

  /** Minting an id changes nothing stored. */
  lemma MintKeeps(canon: Canon, w: World, a: AttemptId, newId: UserId, sub: string)
    requires WorldInv(canon, w) && a in w.pcs && newId !in w.minted
    ensures WorldInv(canon, w.(minted := w.minted[newId := sub]))
  {
    hide WorldInv, Accounts, PcFits, Chained, Tracks, Quiet;
    WorldParts(canon, w, a);
    MintHere(w, a, newId, sub);
    MovedKeeps(canon, w, w.(minted := w.minted[newId := sub]), a);
  }

  lemma MintHere(w: World, a: AttemptId, newId: UserId, sub: string)
    requires a in w.pcs && a in w.store.attempts && PcFits(w, a) && Chained(w, a) && Tracks(w, a) && newId !in w.minted
    ensures var w1 := w.(minted := w.minted[newId := sub]);
            PcFits(w1, a) && Chained(w1, a) && Tracks(w1, a) && Quiet(w, w1, a)
  {
    hide OnChain, PriorOf;
  }

  /** A new account under a new id, when no stored account has its subject. */
  lemma NewAccountSafe(canon: Canon, w: World, a: AttemptId, claims: Claims, newId: UserId)
    requires Accounts(canon, w) && a in w.pcs && Tracks(w, a) && w.pcs[a].Registering? && w.store.IsRunning(a) && newId !in w.minted
    requires Register(canon, newId, claims).Success? && forall k :: !HasSubject(w, k, claims.sub)
    ensures SafeWrite(canon, w.(minted := w.minted[newId := claims.sub]), a, Register(canon, newId, claims).value)
  {
    var w1 := w.(minted := w.minted[newId := claims.sub]);
    forall k ensures !HasSubject(w1, k, claims.sub) {
      assert !HasSubject(w, k, claims.sub);
    }
  }

  lemma WorldParts(canon: Canon, w: World, a: AttemptId)
    requires WorldInv(canon, w) && a in w.pcs
    ensures Accounts(canon, w) && Tracks(w, a) && Chained(w, a) && a in w.store.attempts && PcFits(w, a)
  {
    hide Inv, Accounts, UniqueSubjects, Rising, Tracks, Chained, PcFits;
  }

  lemma RegisterKeeps(canon: Canon, w: World, a: AttemptId, claims: Claims, newId: UserId)
    requires WorldInv(canon, w) && a in w.pcs && w.pcs[a].Registering? && w.store.IsRunning(a) && newId !in w.minted
    ensures WorldInv(canon, AfterRegistering(canon, w, a, claims, newId))
  {
    hide WorldInv, Accounts, Tracks;
    WorldParts(canon, w, a);
    var w1 := w.(minted := w.minted[newId := claims.sub]);
    MintKeeps(canon, w, a, newId, claims.sub);
    var r := Register(canon, newId, claims);
    if r.Failure? {
      MoveTo(canon, w1, a, Throwing);
    } else if exists k :: HasSubject(w, k, r.value.externalSubject) {
      MoveTo(canon, w1, a, LostRace(claims));
    } else {
      NewAccountSafe(canon, w, a, claims, newId);
      hide SafeWrite, HasSubject;
      WrittenKeeps(canon, w1, a, r.value, Some(claims));
    }
  }

  lemma UpdateKeeps(canon: Canon, w: World, a: AttemptId, r: Instance, changed: Result<User, UserError>, login: Option<Claims>)
    requires WorldInv(canon, w) && a in w.pcs && w.pcs[a].HasLoaded() && w.store.IsRunning(a) && r < |w.users|
    requires changed.Success? ==>
               var u := changed.value;
               u.Valid(canon) && u.id == w.users[r].id && u.externalSubject == w.users[r].externalSubject
    requires login.Some? ==> login.value.sub == w.users[r].externalSubject
    ensures WorldInv(canon, AfterUpdate(w, a, changed, login))
  {
    hide User.Valid, WorldInv, Accounts, Tracks;
    WorldParts(canon, w, a);
    if changed.Success? && VersionMatches(w, changed.value) {
      var u := changed.value.(version := changed.value.version + 1);
      NextVersionSafe(canon, w, a, r, changed.value);
      hide SafeWrite, Written;
      WrittenKeeps(canon, w, a, u, login);
    } else {
      hide Written, Moved;
      MoveTo(canon, w, a, Throwing);
    }
  }

  lemma NextVersionSafe(canon: Canon, w: World, a: AttemptId, r: Instance, u: User)
    requires Accounts(canon, w) && a in w.pcs && Tracks(w, a) && w.pcs[a].HasLoaded() && w.store.IsRunning(a) && r < |w.users|
    requires VersionMatches(w, u) && u.Valid(canon) && u.id == w.users[r].id && u.externalSubject == w.users[r].externalSubject
    ensures SafeWrite(canon, w, a, u.(version := u.version + 1))
  {
  }

  lemma SaveKeeps(canon: Canon, w: World, a: AttemptId, newId: UserId)
    requires WorldInv(canon, w) && CanStep(w, Save(a, newId))
    ensures WorldInv(canon, NextWorld(canon, w, Save(a, newId)))
  {
    hide WorldInv, Chained, Tracks, AfterUpdate, AfterRegistering, User.Valid;
    if w.pcs[a].HasLoaded() { LoadedFacts(canon, w, a); }
    match w.pcs[a]
    case Registering(claims) => RegisterKeeps(canon, w, a, claims, newId);
    case LoggingIn(claims, r, _) =>
      LogInKeeps(canon, w.users[r], claims);
      UpdateKeeps(canon, w, a, r, w.users[r].LogIn(canon, claims), Some(claims));
    case ChangingStatus(target, r, _) =>
      UpdateKeeps(canon, w, a, r, w.users[r].WithStatus(canon, target), None);
    case _ =>
  }

  ghost function LoadedUser(w: World, a: AttemptId): User
    requires a in w.pcs && w.pcs[a].HasLoaded() && w.pcs[a].loaded < |w.users|
  {
    w.users[w.pcs[a].loaded]
  }

  lemma LoadedFacts(canon: Canon, w: World, a: AttemptId)
    requires WorldInv(canon, w) && a in w.pcs && w.pcs[a].HasLoaded()
    ensures w.pcs[a].loaded < |w.users| && Chained(w, a) && Tracks(w, a) && LoadedUser(w, a).Valid(canon)
    ensures w.pcs[a].LoggingIn? ==> LoadedUser(w, a).externalSubject == w.pcs[a].claims.sub
  {
    assert PcFits(w, a);
    StoredIsValid(canon, w, w.pcs[a].loaded);
    hide Inv, Accounts, UniqueSubjects, Chained, Tracks, Rising, User.Valid;
  }

  lemma StoredIsValid(canon: Canon, w: World, r: Instance)
    requires WorldInv(canon, w) && r < |w.users|
    ensures w.users[r].Valid(canon)
  {
  }

  lemma FinishFits(canon: Canon, w: World, a: AttemptId)
    requires PcsFit(w) && CanStep(w, Finish(a))
    ensures PcsFit(NextWorld(canon, w, Finish(a)))
  {
    hide Marked;
    var w' := NextWorld(canon, w, Finish(a));
    assert PcFits(w', a);
    OthersFit(w, w', a);
  }

  lemma FinishQuiet(canon: Canon, w: World, a: AttemptId)
    requires Tidy(w.store) && CanStep(w, Finish(a)) && Tracks(w, a)
    ensures var w' := NextWorld(canon, w, Finish(a)); Quiet(w, w', a)
  {
    hide OnChain, Restored, Remembered, Tracks;
  }

  lemma FinishHere(canon: Canon, w: World, a: AttemptId)
    requires CanStep(w, Finish(a)) && Tracks(w, a)
    ensures var w' := NextWorld(canon, w, Finish(a)); Chained(w', a) && Tracks(w', a)
  {
    hide OnChain, Restored, Remembered;
  }

  lemma FinishKeeps(canon: Canon, w: World, a: AttemptId)
    requires WorldInv(canon, w) && CanStep(w, Finish(a))
    ensures WorldInv(canon, NextWorld(canon, w, Finish(a)))
  {
    assert Tracks(w, a);
    hide Inv, Accounts, UniqueSubjects, PcsFit, Rising, Chained, Tracks;
    var w' := NextWorld(canon, w, Finish(a));
    assert w'.store == Next(w.store, Commit(a));
    TidyOf(w.store);
    InvNext(w.store, Commit(a));
    FinishFits(canon, w, a);
    FinishQuiet(canon, w, a);
    FinishHere(canon, w, a);
    hide Quiet, NextWorld;
    QuietKeeps(canon, w, w', a);
  }

  lemma RollBackShape(canon: Canon, w: World, a: AttemptId)
    requires CanStep(w, RollBack(a))
    ensures var w' := NextWorld(canon, w, RollBack(a)); w'.store == Next(w.store, Abort(a)) && w'.pcs.Keys == w.pcs.Keys
    ensures Enabled(w.store, Abort(a))
  {
    hide Next, Marked;
  }

  lemma RollBackInv(canon: Canon, w: World, a: AttemptId)
    requires WorldInv(canon, w) && CanStep(w, RollBack(a))
    ensures WorldInv(canon, NextWorld(canon, w, RollBack(a)))
  {
    assert Tracks(w, a);
    hide Inv, Accounts, UniqueSubjects, Rising, Chained, Tracks, PcsFit, NextWorld, Next, CanStep;
    var w' := NextWorld(canon, w, RollBack(a));
    RollBackShape(canon, w, a);
    TidyOf(w.store);
    InvNext(w.store, Abort(a));
    RollBackFits(canon, w, a);
    RollBackKeeps(canon, w, a);
    forall b | b in w'.pcs ensures Chained(w', b) && Tracks(w', b) { RollBackKeepsOne(canon, w, a, b); }
  }

  lemma RollBackFits(canon: Canon, w: World, a: AttemptId)
    requires PcsFit(w) && CanStep(w, RollBack(a))
    ensures PcsFit(NextWorld(canon, w, RollBack(a)))
  {
    var w' := NextWorld(canon, w, RollBack(a));
    hide Marked, Restored;
    assert PcFits(w', a);
    OthersFit(w, w', a);
  }

  lemma WorldInvNext(canon: Canon, w: World, e: Step)
    requires WorldInv(canon, w) && CanStep(w, e)
    ensures WorldInv(canon, NextWorld(canon, w, e))
  {
    hide WorldInv, Finds;
    match e
    case StartLogin(a, claims) => StartKeeps(canon, w, a, LookUp(claims));
    case StartStatusChange(a, id, target) => StartKeeps(canon, w, a, LookUpById(id, target));
    case Read(a, found) => hide NextWorld; ReadKeeps(canon, w, a, found);
    case Save(a, newId) => hide NextWorld; SaveKeeps(canon, w, a, newId);
    case Throw(a) => RunningPc(canon, w, a); MoveTo(canon, w, a, Throwing);
    case Finish(a) => hide NextWorld; FinishKeeps(canon, w, a);
    case RollBack(a) => hide NextWorld; RollBackInv(canon, w, a);
  }

  lemma {:induction false} WorldInvReached(canon: Canon, run: seq<Step>)
    requires Possible(canon, run)
    ensures WorldInv(canon, Reached(canon, run))
    decreases |run|
  {
    if run != [] {
      var n := |run| - 1;
      WorldInvReached(canon, run[..n]);
      WorldInvNext(canon, Reached(canon, run[..n]), run[n]);
    }
  }

  /** In every interleaving, aborts included, at most one stored account has a given subject. */
  lemma OneAccountPerSubject(canon: Canon, run: seq<Step>, j: UserId, k: UserId, sub: string)
    requires Possible(canon, run)
    requires HasSubject(Reached(canon, run), j, sub) && HasSubject(Reached(canon, run), k, sub)
    ensures j == k
  {
    WorldInvReached(canon, run);
    hide Inv, Accounts, PcsFit, Rising, Chained, Tracks, Possible, Reached;
  }

  /** The account an attempt has answered with is stored from then on. */
  lemma AnswerStays(canon: Canon, w: World, a: AttemptId)
    requires WorldInv(canon, w) && a in w.pcs && w.pcs[a].Responded?
    ensures w.pcs[a].id in w.store.committed && w.pcs[a].id in w.minted
    ensures w.pcs[a].login.Some? ==> w.minted[w.pcs[a].id] == w.pcs[a].login.value.sub
  {
    assert PcFits(w, a) && Tracks(w, a);
    hide Accounts, UniqueSubjects, PcsFit, Rising, Chained, PcFits;
    CommittedWriteStays(w.store, a, w.pcs[a].id);
    hide Inv;
  }

  lemma CommittedWriteStays(s: Store<UserId>, a: AttemptId, k: UserId)
    requires Inv(s) && a in s.attempts && s.attempts[a].phase == Committed && k in s.attempts[a].written
    ensures k in s.committed
  {
    assert TidyAttempt(s, a) && Superseded(s, k);
    var r := s.attempts[a].written[k];
    assert s.log[r] == LogEntry(a, k);
    hide Tidy, Remembers, TidyAttempt;
  }

  /** In every interleaving, aborts included, all ok answers to logins with one subject carry the same user id. */
  lemma OneAnswerPerSubject(canon: Canon, run: seq<Step>, a: AttemptId, b: AttemptId)
    requires Possible(canon, run)
    requires var pcs := Reached(canon, run).pcs;
             && a in pcs && b in pcs && pcs[a].Responded? && pcs[b].Responded?
             && pcs[a].login.Some? && pcs[b].login.Some? && pcs[a].login.value.sub == pcs[b].login.value.sub
    ensures Reached(canon, run).pcs[a].id == Reached(canon, run).pcs[b].id
  {
    var w := Reached(canon, run);
    WorldInvReached(canon, run);
    hide Possible, Reached;
    AnswerStays(canon, w, a);
    AnswerStays(canon, w, b);
    hide PcsFit, Chained, Tracks, Rising;
    CommittedAccount(canon, w, w.pcs[a].id);
    CommittedAccount(canon, w, w.pcs[b].id);
    hide Inv, Accounts;
    assert UniqueSubjects(w);
  }
}
