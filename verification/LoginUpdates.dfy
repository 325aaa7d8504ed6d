/**
 When an update replaces exactly the account its writer had loaded
 (fake-iam-unit-of-work.ts:107-115, 135-151, user.ts:224-294).
 */
module LoginUpdates {
  import opened Wrappers
  import opened Users
  import opened RollbackStore
  import opened LoginRuns

  // ---------------------------------------------------------------------------------------------
  // Versions along a chain
  // ---------------------------------------------------------------------------------------------

  /** Down a chain versions strictly fall, so the same version can only be the same instance. */
  lemma {:induction false} ChainRises(w: World, r: Instance, top: Instance)
    requires Rising(w) && |w.users| == |w.store.log| && OnChain(w.store, r, Some(top))
    ensures r <= top < |w.users| && w.users[r].version <= w.users[top].version
    ensures w.users[r].version == w.users[top].version ==> r == top
    decreases top
  {
    if r != top { ChainRises(w, r, PriorOf(w.store, top).value); }
  }

  // ---------------------------------------------------------------------------------------------
  // One update
  // ---------------------------------------------------------------------------------------------

  /** What the aggregate makes of the loaded account, before the repository bumps its version. */
  ghost function Changed(canon: Canon, w: World, a: AttemptId): Result<User, UserError>
    requires a in w.pcs && w.pcs[a].HasLoaded() && w.pcs[a].loaded < |w.users|
  {
    match w.pcs[a]
    case LoggingIn(claims, r, _) => w.users[r].LogIn(canon, claims)
    case ChangingStatus(target, r, _) => w.users[r].WithStatus(canon, target)
  }

  /** `v` is the next version of `u`: a login finds and leaves it Active, a status change flips it. */
  ghost predicate NextVersion(u: User, v: User, byLogin: bool) {
    && v.id == u.id && v.externalSubject == u.externalSubject && v.version == u.version + 1
    && (if byLogin then u.status == Active && v.status == Active else v.status != u.status)
  }

  /** The step stored a next version of the account attempt `a` had loaded, and touched nothing else. */
  ghost predicate Updates(w: World, w': World, a: AttemptId) {
    && a in w.pcs && w.pcs[a].HasLoaded() && w.pcs[a].loaded < |w.users|
    && a in w'.pcs && w'.pcs[a].Saved? && |w'.users| == |w.users| + 1
    && var u, v, pc := LoadedUser(w, a), w'.users[|w.users|], w'.pcs[a];
    && w'.users[..|w.users|] == w.users && NextVersion(u, v, pc.login.Some?)
    && w'.store.committed == w.store.committed[u.id := |w.store.log|]
    && w'.store.log == w.store.log + [LogEntry(a, u.id)]
    && pc.id == u.id && (pc.login.Some? ==> pc.login.value.sub == u.externalSubject)
    && w'.pcs == w.pcs[a := pc] && w'.minted == w.minted
    && SameTrackers(w, w', a)
  }

  ghost predicate SameTrackers(w: World, w': World, a: AttemptId) {
    && a in w'.store.attempts
    && (forall b :: b in w.store.attempts && b != a ==>
          b in w'.store.attempts && w'.store.attempts[b].prior == w.store.attempts[b].prior)
  }

  /** What the update replaces is the loaded instance. */
  ghost predicate ReplacesLoaded(w: World, a: AttemptId)
    requires a in w.pcs && w.pcs[a].HasLoaded() && w.pcs[a].loaded < |w.users|
  {
    Get(w.store.committed, LoadedUser(w, a).id) == Some(w.pcs[a].loaded)
  }

  /** The update goes through: the aggregate allows it, and the stored version is the loaded one. */
  ghost predicate GoesThrough(canon: Canon, w: World, a: AttemptId)
    requires a in w.pcs && w.pcs[a].HasLoaded() && w.pcs[a].loaded < |w.users|
  {
    Changed(canon, w, a).Success? && VersionMatches(w, LoadedUser(w, a))
  }

  lemma AfterUpdateUpdates(w: World, a: AttemptId, changed: Result<User, UserError>, login: Option<Claims>)
    requires a in w.pcs && w.store.IsRunning(a) && w.pcs[a].HasLoaded() && w.pcs[a].loaded < |w.users|
    requires login.Some? ==> login.value.sub == LoadedUser(w, a).externalSubject
    requires changed.Success? ==> NextVersion(LoadedUser(w, a), changed.value.(version := changed.value.version + 1), login.Some?)
    ensures var w' := AfterUpdate(w, a, changed, login);
            if changed.Success? && VersionMatches(w, LoadedUser(w, a)) then Updates(w, w', a) else w' == Moved(w, a, Throwing)
  {
    hide Remembered;
  }

  lemma SaveUpdates(canon: Canon, w: World, a: AttemptId, newId: UserId)
    requires WorldInv(canon, w) && CanStep(w, Save(a, newId)) && w.pcs[a].HasLoaded()
    ensures var w' := NextWorld(canon, w, Save(a, newId));
            if GoesThrough(canon, w, a) then Updates(w, w', a) else w' == Moved(w, a, Throwing)
  {
    hide WorldInv, User.Valid, AfterUpdate, AfterRegistering, Updates, Moved, Chained, Tracks;
    LoadedFacts(canon, w, a);
    var u := LoadedUser(w, a);
    match w.pcs[a]
    case LoggingIn(claims, r, _) =>
      LogInKeeps(canon, u, claims);
      hide User.LogIn;
      AfterUpdateUpdates(w, a, u.LogIn(canon, claims), Some(claims));
    case ChangingStatus(target, r, _) =>
      AfterUpdateUpdates(w, a, u.WithStatus(canon, target), None);
  }

  /** An update that passes the version guard replaces the loaded instance exactly when no rollback has taken that away. */
  lemma MatchReplacesIffKept(canon: Canon, w: World, a: AttemptId)
    requires WorldInv(canon, w) && a in w.pcs && w.pcs[a].HasLoaded()
    ensures w.pcs[a].loaded < |w.users|
    ensures VersionMatches(w, LoadedUser(w, a)) ==> (ReplacesLoaded(w, a) <==> !w.pcs[a].taken)
  {
    hide Inv, Accounts, UniqueSubjects, PcsFit, PriorOf;
    LoadedFacts(canon, w, a);
    WorldParts(canon, w, a);
    OnePerInstance(canon, w);
    hide Tracks, User.Valid;
    if VersionMatches(w, LoadedUser(w, a)) && !w.pcs[a].taken {
      ChainRises(w, w.pcs[a].loaded, w.store.committed[LoadedUser(w, a).id]);
    }
    hide Rising;
  }

  /**
   In every interleaving, aborts included: an update that goes through replaces exactly the instance its writer
   had loaded if and only if no rollback has taken that instance away since it was read. The new account is the
   next version of the loaded one: a login finds and leaves it Active, a status change flips it.
   */
  lemma UpdateReplacesLoadedIff(canon: Canon, run: seq<Step>, a: AttemptId, newId: UserId)
    requires Possible(canon, run) && CanStep(Reached(canon, run), Save(a, newId)) && Reached(canon, run).pcs[a].HasLoaded()
    ensures var w := Reached(canon, run);
            var w' := NextWorld(canon, w, Save(a, newId));
            if GoesThrough(canon, w, a) then Updates(w, w', a) && (ReplacesLoaded(w, a) <==> !w.pcs[a].taken)
            else w' == Moved(w, a, Throwing)
  {
    WorldInvReached(canon, run);
    hide Possible, Reached, WorldInv, NextWorld, Updates, Moved, Changed;
    SaveUpdates(canon, Reached(canon, run), a, newId);
    MatchReplacesIffKept(canon, Reached(canon, run), a);
  }
}
