/**
 What becomes of a login or a status change: when an attempt fails, and what an undisturbed one achieves, the retry
 after a lost first-login race included (authenticate.ts:85-142, user.ts:189-294).
 */
module LoginOutcomes {
  import opened Wrappers
  import opened Users
  import opened RollbackStore
  import opened LoginRuns
  import opened LoginUpdates

  // ---------------------------------------------------------------------------------------------
  // A failure has a cause
  // ---------------------------------------------------------------------------------------------

  /** A row is stored under the account's id, at the account's version. */
  ghost predicate StillStored(w: World, u: User) {
    && u.id in w.store.committed && w.store.committed[u.id] < |w.users|
    && w.users[w.store.committed[u.id]].version == u.version
  }

  /** Why a step of attempt `a` makes it throw. */
  ghost predicate ThrowsFor(canon: Canon, w: World, e: Step, a: AttemptId)
    requires a in w.pcs && (w.pcs[a].HasLoaded() ==> w.pcs[a].loaded < |w.users|)
  {
    || e == Throw(a)
    || (e.Save? && e.attempt == a &&
        match w.pcs[a]
        case Registering(claims) => canon.isBlank(claims.sub) || canon.isBlank(canon.email(claims.email))
        case LoggingIn(_, r, _) => w.users[r].status == Suspended || !StillStored(w, w.users[r])
        case ChangingStatus(target, r, _) => w.users[r].status == target || !StillStored(w, w.users[r])
        case _ => false)
    || (e == Read(a, None) && w.pcs[a].LostRace? && forall k :: !HasSubject(w, k, w.pcs[a].claims.sub))
    || (e == Read(a, None) && w.pcs[a].LookUpById? && w.pcs[a].id !in w.store.committed)
  }

  /** The step leaves attempt `a` throwing. */
  ghost predicate Throws(canon: Canon, w: World, e: Step, a: AttemptId)
    requires CanStep(w, e)
  {
    var w' := NextWorld(canon, w, e);
    a in w'.pcs && w'.pcs[a] == Throwing
  }

  lemma SaveThrowsFor(canon: Canon, w: World, a: AttemptId, newId: UserId)
    requires WorldInv(canon, w) && CanStep(w, Save(a, newId)) && (w.pcs[a].HasLoaded() ==> w.pcs[a].loaded < |w.users|)
    ensures Throws(canon, w, Save(a, newId), a) <==> ThrowsFor(canon, w, Save(a, newId), a)
  {
    if w.pcs[a].HasLoaded() {
      LoadedFacts(canon, w, a);
      SaveUpdates(canon, w, a, newId);
      hide WorldInv, NextWorld, Chained, Tracks, CanStep;
      if w.pcs[a].LoggingIn? { LogInKeeps(canon, LoadedUser(w, a), w.pcs[a].claims); }
      if w.pcs[a].ChangingStatus? { WithStatusExactly(canon, LoadedUser(w, a), w.pcs[a].target); }
      hide User.LogIn, User.WithStatus, User.Valid, SameTrackers, NextVersion;
    } else {
      RegisterExactly(canon, newId, w.pcs[a].claims);
      hide WorldInv, Register, HasSubject, Next;
    }
  }

  /** In every possible run a step makes an attempt throw exactly for one of these causes. */
  lemma ThrowsExactly(canon: Canon, run: seq<Step>, e: Step, a: AttemptId)
    requires Possible(canon, run) && CanStep(Reached(canon, run), e)
    requires a in Reached(canon, run).pcs && Reached(canon, run).pcs[a] != Throwing
    ensures var w := Reached(canon, run);
            && (w.pcs[a].HasLoaded() ==> w.pcs[a].loaded < |w.users|)
            && (Throws(canon, w, e, a) <==> ThrowsFor(canon, w, e, a))
  {
    var w := Reached(canon, run);
    WorldInvReached(canon, run);
    hide Possible, Reached, Throws, ThrowsFor, NextWorld, CanStep, Chained, Tracks, WorldInv;
    if w.pcs[a].HasLoaded() { LoadedFacts(canon, w, a); }
    if e.Save? && e.attempt == a {
      SaveThrowsFor(canon, w, a, e.newId);
    } else {
      OtherThrows(canon, w, e, a);
    }
  }

  lemma OtherThrows(canon: Canon, w: World, e: Step, a: AttemptId)
    requires CanStep(w, e) && a in w.pcs && w.pcs[a] != Throwing && !(e.Save? && e.attempt == a)
    requires w.pcs[a].HasLoaded() ==> w.pcs[a].loaded < |w.users|
    ensures Throws(canon, w, e, a) <==> ThrowsFor(canon, w, e, a)
  {
    hide Next, HasSubject, Register, User.LogIn, User.WithStatus, VersionMatches, StillStored, TakesLoaded;
  }

  // ---------------------------------------------------------------------------------------------
  // Undisturbed attempts
  // ---------------------------------------------------------------------------------------------

  /** Attempt `a` has answered ok with the account `u`, now stored as the newest instance, and the rest is as it was. */
  ghost predicate AnsweredWith(w: World, w': World, a: AttemptId, u: User, login: Option<Claims>) {
    && a in w'.pcs && w'.pcs[a] == Responded(u.id, login)
    && w'.users == w.users + [u] && w'.store.committed == w.store.committed[u.id := |w.users|]
  }

  /** What the claims make of a stored account. */
  ghost predicate Refreshed(canon: Canon, u: User, claims: Claims, v: User) {
    && v.id == u.id && v.externalSubject == u.externalSubject && v.status == u.status && v.version == u.version + 1
    && v.displayName == (if canon.isBlank(canon.name(claims.displayName)) then u.displayName else canon.name(claims.displayName))
    && v.email == (if canon.isBlank(canon.email(claims.email)) then u.email else canon.email(claims.email))
  }

  lemma SaveStores(canon: Canon, w: World, a: AttemptId, newId: UserId, login: Option<Claims>)
    requires CanStep(w, Save(a, newId)) && w.pcs[a].HasLoaded() && GoesThrough(canon, w, a)
    requires login == if w.pcs[a].LoggingIn? then Some(w.pcs[a].claims) else None
    requires Changed(canon, w, a).value.id == LoadedUser(w, a).id && Changed(canon, w, a).value.version == LoadedUser(w, a).version
    ensures NextWorld(canon, w, Save(a, newId)) ==
            Written(w, a, Changed(canon, w, a).value.(version := LoadedUser(w, a).version + 1), Saved(LoadedUser(w, a).id, login))
  {
    hide User.LogIn, User.WithStatus, Written, AfterRegistering;
  }

  lemma FinishAnswers(canon: Canon, run: seq<Step>, w: World, a: AttemptId, u: User, login: Option<Claims>)
    requires w.store.IsRunning(a) && |w.users| == |w.store.log|
    requires Possible(canon, run) && Reached(canon, run) == Written(w, a, u, Saved(u.id, login))
    ensures Possible(canon, run + [Finish(a)]) && AnsweredWith(w, Reached(canon, run + [Finish(a)]), a, u, login)
  {
    hide Possible, Reached;
    var w1 := Written(w, a, u, Saved(u.id, login));
    assert w1.store.IsRunning(a) && w1.pcs[a] == Saved(u.id, login);
    assert w1.users == w.users + [u] && w1.store.committed == w.store.committed[u.id := |w.users|];
    hide Written;
    Continue(canon, run, Finish(a));
  }

  /** The save of an account that is stored as it was loaded. */
  lemma LogInStores(canon: Canon, w: World, a: AttemptId, claims: Claims, newId: UserId) returns (v: User)
    requires WorldInv(canon, w) && a in w.pcs && w.pcs[a].LoggingIn? && w.pcs[a].claims == claims && w.pcs[a].loaded < |w.users|
    requires ReplacesLoaded(w, a) && LoadedUser(w, a).status == Active
    ensures Refreshed(canon, LoadedUser(w, a), claims, v) && w.store.IsRunning(a) && |w.users| == |w.store.log|
    ensures CanStep(w, Save(a, newId)) && NextWorld(canon, w, Save(a, newId)) == Written(w, a, v, Saved(v.id, Some(claims)))
  {
    hide WorldInv, Accounts, Tracks, Chained, PcFits, NextWorld, Written;
    LoadedFacts(canon, w, a);
    RunningPc(canon, w, a);
    WorldParts(canon, w, a);
    OnePerInstance(canon, w);
    var u := LoadedUser(w, a);
    LogInKeeps(canon, u, claims);
    v := u.LogIn(canon, claims).value.(version := u.version + 1);
    hide User.LogIn, User.Valid;
    SaveStores(canon, w, a, newId, Some(claims));
  }

  /** An Active account that is stored as it was loaded is logged in: refreshed, at the next version, under its own id. */
  lemma LogsIn(canon: Canon, run: seq<Step>, w: World, a: AttemptId, claims: Claims, newId: UserId) returns (v: User)
    requires Possible(canon, run) && w == Reached(canon, run) && WorldInv(canon, w)
    requires a in w.pcs && w.pcs[a].LoggingIn? && w.pcs[a].claims == claims && w.pcs[a].loaded < |w.users|
    requires ReplacesLoaded(w, a) && LoadedUser(w, a).status == Active
    ensures var longer := run + [Save(a, newId)] + [Finish(a)];
            && Refreshed(canon, LoadedUser(w, a), claims, v)
            && Possible(canon, longer) && AnsweredWith(w, Reached(canon, longer), a, v, Some(claims))
  {
    hide Possible, Reached, WorldInv, NextWorld, Written, CanStep, AnsweredWith, Refreshed;
    v := LogInStores(canon, w, a, claims, newId);
    Continue(canon, run, Save(a, newId));
    FinishAnswers(canon, run + [Save(a, newId)], w, a, v, Some(claims));
  }

  /** Reading an account that is stored: the attempt now holds it. */
  lemma ReadsAccount(canon: Canon, w: World, a: AttemptId, claims: Claims, r: Instance)
    requires WorldInv(canon, w) && a in w.pcs && (w.pcs[a] == LookUp(claims) || w.pcs[a] == LostRace(claims))
    requires r < |w.users| && w.users[r].externalSubject == claims.sub && Get(w.store.committed, w.users[r].id) == Some(r)
    ensures CanStep(w, Read(a, Some(r)))
    ensures NextWorld(canon, w, Read(a, Some(r))) == Moved(w, a, LoggingIn(claims, r, false))
  {
    hide WorldInv;
    assert HasSubject(w, w.users[r].id, claims.sub);
  }

  /** `w'` holds what `w` does, but for where attempt `a` stands and the ids minted. */
  ghost predicate SameStored(w: World, w': World) { w'.users == w.users && w'.store == w.store }

  /**
   An undisturbed login with a known subject, or one that has just lost the first-login race to it: the account that is
   stored is refreshed from the claims and answered, under its own id.
   */
  lemma KnownSubjectLogsIn(canon: Canon, run: seq<Step>, w: World, a: AttemptId, claims: Claims, r: Instance, newId: UserId)
    returns (v: User)
    requires Possible(canon, run) && w == Reached(canon, run)
    requires a in w.pcs && (w.pcs[a] == LookUp(claims) || w.pcs[a] == LostRace(claims))
    requires r < |w.users| && w.users[r].externalSubject == claims.sub && Get(w.store.committed, w.users[r].id) == Some(r)
    requires w.users[r].status == Active
    ensures var longer := run + [Read(a, Some(r))] + [Save(a, newId)] + [Finish(a)];
            && Refreshed(canon, w.users[r], claims, v)
            && Possible(canon, longer) && AnsweredWith(w, Reached(canon, longer), a, v, Some(claims))
  {
    WorldInvReached(canon, run);
    hide Possible, Reached, WorldInv, NextWorld, CanStep, AnsweredWith, Refreshed;
    ReadsAccount(canon, w, a, claims, r);
    Continue(canon, run, Read(a, Some(r)));
    var run1 := run + [Read(a, Some(r))];
    WorldInvReached(canon, run1);
    v := LogsIn(canon, run1, Moved(w, a, LoggingIn(claims, r, false)), a, claims, newId);
    SameAnswer(w, Moved(w, a, LoggingIn(claims, r, false)), Reached(canon, run1 + [Save(a, newId)] + [Finish(a)]), a, v, Some(claims));
  }

  lemma SameAnswer(w: World, w1: World, w2: World, a: AttemptId, v: User, login: Option<Claims>)
    requires SameStored(w, w1) && AnsweredWith(w1, w2, a, v, login)
    ensures AnsweredWith(w, w2, a, v, login)
  {
  }

  /** The save of a registration whose subject is taken. */
  lemma LosesRace(canon: Canon, w: World, a: AttemptId, claims: Claims, r: Instance, lost: UserId)
    requires a in w.pcs && w.pcs[a] == LoginRuns.Registering(claims) && w.store.IsRunning(a)
    requires lost !in w.minted && Register(canon, lost, claims).Success?
    requires r < |w.users| && w.users[r].externalSubject == claims.sub && Get(w.store.committed, w.users[r].id) == Some(r)
    ensures CanStep(w, Save(a, lost))
    ensures NextWorld(canon, w, Save(a, lost)) == Moved(w.(minted := w.minted[lost := claims.sub]), a, LostRace(claims))
  {
    assert HasSubject(w, w.users[r].id, claims.sub);
    RegisterExactly(canon, lost, claims);
    hide Register, HasSubject;
  }

  /** A lost race, from the save that finds the subject taken: the loser logs in as the winner's account. */
  lemma RaceLoserLogsIn(canon: Canon, run: seq<Step>, w: World, a: AttemptId, claims: Claims, r: Instance, lost: UserId, newId: UserId)
    returns (v: User)
    requires Possible(canon, run) && w == Reached(canon, run)
    requires a in w.pcs && w.pcs[a] == LoginRuns.Registering(claims) && lost !in w.minted && Register(canon, lost, claims).Success?
    requires r < |w.users| && w.users[r].externalSubject == claims.sub && Get(w.store.committed, w.users[r].id) == Some(r)
    requires w.users[r].status == Active
    ensures var longer := run + [Save(a, lost)] + [Read(a, Some(r))] + [Save(a, newId)] + [Finish(a)];
            && Refreshed(canon, w.users[r], claims, v)
            && Possible(canon, longer) && AnsweredWith(w, Reached(canon, longer), a, v, Some(claims))
  {
    var w1 := Moved(w.(minted := w.minted[lost := claims.sub]), a, LostRace(claims));
    WorldInvReached(canon, run);
    hide Possible, Reached, WorldInv, AnsweredWith, Refreshed, Register, NextWorld, CanStep, PcFits;
    RunningPc(canon, w, a);
    LosesRace(canon, w, a, claims, r, lost);
    Continue(canon, run, Save(a, lost));
    var run1 := run + [Save(a, lost)];
    v := KnownSubjectLogsIn(canon, run1, w1, a, claims, r, newId);
    SameAnswer(w, w1, Reached(canon, run1 + [Read(a, Some(r))] + [Save(a, newId)] + [Finish(a)]), a, v, Some(claims));
  }

  /** An undisturbed first login with valid claims registers the account and answers with its new id. */
  lemma UnknownSubjectRegisters(canon: Canon, run: seq<Step>, w: World, a: AttemptId, claims: Claims, newId: UserId)
    requires Possible(canon, run) && w == Reached(canon, run)
    requires a in w.pcs && w.pcs[a] == LookUp(claims) && newId !in w.minted && Register(canon, newId, claims).Success?
    requires forall k :: !HasSubject(w, k, claims.sub)
    ensures var longer := run + [Read(a, None)] + [Save(a, newId)] + [Finish(a)];
            Possible(canon, longer) && AnsweredWith(w, Reached(canon, longer), a, Register(canon, newId, claims).value, Some(claims))
  {
    WorldInvReached(canon, run);
    hide Possible, Reached, WorldInv, AnsweredWith, Accounts, Tracks, Chained, PcFits, NextWorld, CanStep, Register, Written, HasSubject;
    RunningPc(canon, w, a);
    WorldParts(canon, w, a);
    OnePerInstance(canon, w);
    ReadsNone(canon, w, a, claims);
    Continue(canon, run, Read(a, None));
    var run1 := run + [Read(a, None)];
    var w1 := Moved(w, a, LoginRuns.Registering(claims));
    RegistersNow(canon, w1, a, claims, newId);
    RegisterExactly(canon, newId, claims);
    var u := Register(canon, newId, claims).value;
    Continue(canon, run1, Save(a, newId));
    var w2 := w1.(minted := w1.minted[newId := claims.sub]);
    FinishAnswers(canon, run1 + [Save(a, newId)], w2, a, u, Some(claims));
    SameAnswer(w, w2, Reached(canon, run1 + [Save(a, newId)] + [Finish(a)]), a, u, Some(claims));
  }

  lemma ReadsNone(canon: Canon, w: World, a: AttemptId, claims: Claims)
    requires a in w.pcs && w.pcs[a] == LookUp(claims) && forall k :: !HasSubject(w, k, claims.sub)
    ensures CanStep(w, Read(a, None)) && NextWorld(canon, w, Read(a, None)) == Moved(w, a, LoginRuns.Registering(claims))
    ensures forall k :: !HasSubject(Moved(w, a, LoginRuns.Registering(claims)), k, claims.sub)
  {
    forall k ensures !HasSubject(Moved(w, a, LoginRuns.Registering(claims)), k, claims.sub) {
      assert !HasSubject(w, k, claims.sub);
    }
  }

  lemma RegistersNow(canon: Canon, w: World, a: AttemptId, claims: Claims, newId: UserId)
    requires a in w.pcs && w.pcs[a] == LoginRuns.Registering(claims) && newId !in w.minted && w.store.IsRunning(a)
    requires Register(canon, newId, claims).Success? && forall k :: !HasSubject(w, k, claims.sub)
    ensures CanStep(w, Save(a, newId))
    ensures NextWorld(canon, w, Save(a, newId)) ==
            Written(w.(minted := w.minted[newId := claims.sub]), a, Register(canon, newId, claims).value, Saved(newId, Some(claims)))
  {
    RegisterExactly(canon, newId, claims);
    hide Register, HasSubject;
  }

  /** An undisturbed suspension or reactivation of a stored account of the other status goes through. */
  lemma StatusChanges(canon: Canon, run: seq<Step>, w: World, a: AttemptId, id: UserId, target: Status, r: Instance, newId: UserId)
    requires Possible(canon, run) && w == Reached(canon, run)
    requires a in w.pcs && w.pcs[a] == LookUpById(id, target) && Get(w.store.committed, id) == Some(r) && r < |w.users|
    requires w.users[r].status != target
    ensures var longer := run + [Read(a, Some(r))] + [Save(a, newId)] + [Finish(a)];
            && Possible(canon, longer)
            && AnsweredWith(w, Reached(canon, longer), a, w.users[r].(status := target, version := w.users[r].version + 1), None)
  {
    var w1 := Moved(w, a, ChangingStatus(target, r, false));
    WorldInvReached(canon, run);
    hide Possible, Reached, WorldInv, AnsweredWith, NextWorld, CanStep, Written;
    ReadsById(canon, w, a, id, target, r);
    Continue(canon, run, Read(a, Some(r)));
    var run1 := run + [Read(a, Some(r))];
    WorldInvReached(canon, run1);
    var v := w.users[r].(status := target, version := w.users[r].version + 1);
    StoredUnderOwnId(canon, w, id);
    ChangeStores(canon, w1, a, target, r, newId);
    Continue(canon, run1, Save(a, newId));
    FinishAnswers(canon, run1 + [Save(a, newId)], w1, a, v, None);
    SameAnswer(w, w1, Reached(canon, run1 + [Save(a, newId)] + [Finish(a)]), a, v, None);
  }

  lemma ReadsById(canon: Canon, w: World, a: AttemptId, id: UserId, target: Status, r: Instance)
    requires a in w.pcs && w.pcs[a] == LookUpById(id, target) && Get(w.store.committed, id) == Some(r)
    ensures CanStep(w, Read(a, Some(r))) && NextWorld(canon, w, Read(a, Some(r))) == Moved(w, a, ChangingStatus(target, r, false))
  {
  }

  lemma StoredUnderOwnId(canon: Canon, w: World, id: UserId)
    requires WorldInv(canon, w) && id in w.store.committed
    ensures w.store.committed[id] < |w.users| && w.users[w.store.committed[id]].id == id
  {
    hide UniqueSubjects, PcsFit, Rising, Chained, Tracks;
    CommittedAccount(canon, w, id);
  }

  lemma ChangeStores(canon: Canon, w: World, a: AttemptId, target: Status, r: Instance, newId: UserId)
    requires WorldInv(canon, w) && a in w.pcs && w.pcs[a] == ChangingStatus(target, r, false) && r < |w.users|
    requires ReplacesLoaded(w, a) && w.users[r].status != target
    ensures w.store.IsRunning(a) && |w.users| == |w.store.log|
    ensures var v := w.users[r].(status := target, version := w.users[r].version + 1);
            CanStep(w, Save(a, newId)) && NextWorld(canon, w, Save(a, newId)) == Written(w, a, v, Saved(v.id, None))
  {
    hide WorldInv, Accounts, Tracks, Chained, PcFits, NextWorld, Written;
    LoadedFacts(canon, w, a);
    RunningPc(canon, w, a);
    WorldParts(canon, w, a);
    OnePerInstance(canon, w);
    WithStatusExactly(canon, w.users[r], target);
    hide User.WithStatus, User.Valid;
    SaveStores(canon, w, a, newId, None);
  }
}
