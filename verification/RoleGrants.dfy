/**
 The `UserRoleGrants` aggregate with its recorded facts, and the role-grants side of one unit-of-work attempt
 (user-role-grants.ts:41-148, aggregate-root.ts:16-32, fake-iam-unit-of-work.ts:162-233, 251-262).
 */
module RoleGrants {
  import opened Wrappers
  import opened Users
  import opened RollbackStore

  datatype ClubId = ClubId(text: string)
  datatype DomainRole = ShowSecretary | Judge | PlatformAdministrator
  datatype RoleScope = ClubScope(club: ClubId) | PlatformScope
  {
    function Club(): Option<ClubId> { if ClubScope? then Some(club) else None }
  }
  datatype RoleGrant = RoleGrant(role: DomainRole, scope: RoleScope)

  /** A fact names the role and, for a club-scoped role, the club. */
  datatype Fact =
    | RoleGranted(user: UserId, role: DomainRole, club: Option<ClubId>)
    | RoleRevoked(user: UserId, role: DomainRole, club: Option<ClubId>)
  {
    /** The grant a fact is about, from its payload alone. */
    function About(): RoleGrant {
      RoleGrant(role, match club case Some(c) => ClubScope(c) case None => PlatformScope)
    }
  }

  datatype Command = Grant(grant: RoleGrant) | Revoke(role: DomainRole, scope: RoleScope)

  predicate NoDuplicates(grants: seq<RoleGrant>) {
    forall i, j :: 0 <= i < j < |grants| ==> grants[i] != grants[j]
  }

  /** Everything but `g`, in order. */
  function Without(grants: seq<RoleGrant>, g: RoleGrant): (rest: seq<RoleGrant>)
    ensures forall x :: x in rest <==> x in grants && x != g
    ensures g !in grants ==> rest == grants
  {
    if grants == [] then []
    else
      var n := |grants| - 1;
      if grants[n] == g then Without(grants[..n], g) else Without(grants[..n], g) + [grants[n]]
  }

  lemma {:induction false} WithoutKeeps(grants: seq<RoleGrant>, g: RoleGrant)
    requires NoDuplicates(grants)
    ensures NoDuplicates(Without(grants, g))
  {
    if grants != [] {
      var n := |grants| - 1;
      WithoutKeeps(grants[..n], g);
      var rest := Without(grants[..n], g);
      forall i | 0 <= i < |rest| ensures rest[i] != grants[n] {
        assert rest[i] in rest;
      }
    }
  }

  /** The list with `g` cut out where it stands, or the same list when `g` is not in it. */
  ghost predicate IsWithout(before: seq<RoleGrant>, g: RoleGrant, after: seq<RoleGrant>) {
    if g in before then exists k :: 0 <= k < |before| && before[k] == g && after == before[..k] + before[k + 1..]
    else after == before
  }

  lemma {:induction false} WithoutRemovesOne(grants: seq<RoleGrant>, g: RoleGrant)
    requires NoDuplicates(grants)
    ensures IsWithout(grants, g, Without(grants, g))
  {
    hide NoDuplicates, IsWithout;
    if grants == [] {
      NothingToCut(g);
    } else {
      var n := |grants| - 1;
      var before, last := grants[..n], grants[n];
      assert grants == before + [last];
      PrefixDistinct(before, last);
      WithoutRemovesOne(before, g);
      if last == g {
        CutLast(before, g);
      } else {
        CutBeforeLast(before, g, Without(before, g), last);
      }
    }
  }

  lemma PrefixDistinct(before: seq<RoleGrant>, last: RoleGrant)
    requires NoDuplicates(before + [last])
    ensures NoDuplicates(before) && last !in before
  {
    var all := before + [last];
    assert all[|before|] == last;
    assert forall i :: 0 <= i < |before| ==> all[i] == before[i] && all[i] != all[|before|];
  }

  lemma NothingToCut(g: RoleGrant)
    ensures IsWithout([], g, [])
  {
  }

  lemma CutLast(before: seq<RoleGrant>, g: RoleGrant)
    ensures IsWithout(before + [g], g, before)
  {
    var all, n := before + [g], |before|;
    assert all[n] == g && before == all[..n] + all[n + 1..];
  }

  lemma CutBeforeLast(before: seq<RoleGrant>, g: RoleGrant, rest: seq<RoleGrant>, last: RoleGrant)
    requires IsWithout(before, g, rest) && last != g
    ensures IsWithout(before + [last], g, rest + [last])
  {
    var all := before + [last];
    if g in before {
      var k :| 0 <= k < |before| && before[k] == g && rest == before[..k] + before[k + 1..];
      assert all[k] == g && rest + [last] == all[..k] + all[k + 1..];
    }
  }

  // ---------------------------------------------------------------------------------------------
  // Replay
  // ---------------------------------------------------------------------------------------------

  /** What a reader of the recorded facts rebuilds. */
  function Applied(grants: seq<RoleGrant>, f: Fact): seq<RoleGrant> {
    if f.RoleGranted? then grants + [f.About()] else Without(grants, f.About())
  }

  function ReplayFrom(grants: seq<RoleGrant>, facts: seq<Fact>): seq<RoleGrant> {
    if facts == [] then grants
    else
      var n := |facts| - 1;
      Applied(ReplayFrom(grants, facts[..n]), facts[n])
  }

  lemma {:induction false} ReplayConcat(grants: seq<RoleGrant>, first: seq<Fact>, rest: seq<Fact>)
    ensures ReplayFrom(grants, first + rest) == ReplayFrom(ReplayFrom(grants, first), rest)
    decreases |rest|
  {
    if rest == [] {
      assert first + rest == first;
    } else {
      var n := |rest| - 1;
      ReplayConcat(grants, first, rest[..n]);
      var all := first + rest;
      assert all[..|all| - 1] == first + rest[..n] && all[|all| - 1] == rest[n];
      hide Applied;
    }
  }

  /** The fact's own words, read as the grant it is about. */
  ghost predicate IsAbout(f: Fact, g: RoleGrant) {
    f.role == g.role && match f.club case Some(c) => g.scope == ClubScope(c) case None => g.scope == PlatformScope
  }

  /** What the facts say of one grant: the last one about it decides, and without one it stays as it was. */
  ghost predicate HeldAfter(grants: seq<RoleGrant>, facts: seq<Fact>, g: RoleGrant) {
    || (exists i :: 0 <= i < |facts| && facts[i].RoleGranted? && IsAbout(facts[i], g)
                    && forall j :: i < j < |facts| ==> !IsAbout(facts[j], g))
    || (g in grants && forall j :: 0 <= j < |facts| ==> !IsAbout(facts[j], g))
  }

  /** A grant is held after the facts exactly when the last fact about it granted it, or none is and it was held before. */
  lemma {:induction false} ReplayHolds(grants: seq<RoleGrant>, facts: seq<Fact>, g: RoleGrant)
    ensures g in ReplayFrom(grants, facts) <==> HeldAfter(grants, facts, g)
    decreases |facts|
  {
    if facts != [] {
      var n := |facts| - 1;
      var before := facts[..n];
      ReplayHolds(grants, before, g);
      assert forall j :: 0 <= j < n ==> facts[j] == before[j];
      assert IsAbout(facts[n], g) <==> facts[n].About() == g;
      if IsAbout(facts[n], g) {
        assert facts[n].RoleGranted? ==> HeldAfter(grants, facts, g);
      } else {
        HeldBefore(grants, facts, g);
      }
    }
  }

  lemma HeldBefore(grants: seq<RoleGrant>, facts: seq<Fact>, g: RoleGrant)
    requires facts != [] && !IsAbout(facts[|facts| - 1], g)
    ensures HeldAfter(grants, facts, g) <==> HeldAfter(grants, facts[..|facts| - 1], g)
  {
    var n := |facts| - 1;
    var before := facts[..n];
    hide IsAbout;
    assert forall j :: 0 <= j < n ==> facts[j] == before[j];
    if i :| 0 <= i < |facts| && facts[i].RoleGranted? && IsAbout(facts[i], g) && forall j :: i < j < |facts| ==> !IsAbout(facts[j], g) {
      assert before[i] == facts[i];
    }
    if i :| 0 <= i < |before| && before[i].RoleGranted? && IsAbout(before[i], g) && forall j :: i < j < |before| ==> !IsAbout(before[j], g) {
      assert facts[i] == before[i];
      assert forall j :: i < j < |facts| ==> j == n || facts[j] == before[j];
    }
  }

  // ---------------------------------------------------------------------------------------------
  // Commands
  // ---------------------------------------------------------------------------------------------

  /** Whether a command changes the root: a grant already held is refused, a revoke of an absent grant does nothing. */
  predicate Changes(grants: seq<RoleGrant>, c: Command) {
    match c
    case Grant(g) => g !in grants
    case Revoke(role, scope) => RoleGrant(role, scope) in grants
  }

  function FactOf(user: UserId, c: Command): Fact {
    match c
    case Grant(g) => RoleGranted(user, g.role, g.scope.Club())
    case Revoke(role, scope) => RoleRevoked(user, role, scope.Club())
  }

  /** The facts recorded by commands issued in order, refused ones skipped. */
  function FactsOf(user: UserId, grants: seq<RoleGrant>, commands: seq<Command>): (facts: seq<Fact>)
    ensures forall f :: f in facts ==> f.user == user
  {
    if commands == [] then []
    else
      var n := |commands| - 1;
      var facts := FactsOf(user, grants, commands[..n]);
      if Changes(ReplayFrom(grants, facts), commands[n]) then facts + [FactOf(user, commands[n])] else facts
  }

  lemma ChangeKeepsDuplicateFree(user: UserId, grants: seq<RoleGrant>, c: Command)
    requires NoDuplicates(grants) && Changes(grants, c)
    ensures NoDuplicates(Applied(grants, FactOf(user, c)))
  {
    WithoutKeeps(grants, FactOf(user, c).About());
  }

  lemma ReplayOneMore(grants: seq<RoleGrant>, facts: seq<Fact>, f: Fact)
    ensures ReplayFrom(grants, facts + [f]) == Applied(ReplayFrom(grants, facts), f)
  {
    assert (facts + [f])[..|facts|] == facts;
  }

  /** Replaying what a root records keeps grants free of duplicates. */
  lemma {:induction false} ReplayedIsDuplicateFree(user: UserId, grants: seq<RoleGrant>, commands: seq<Command>)
    requires NoDuplicates(grants)
    ensures NoDuplicates(ReplayFrom(grants, FactsOf(user, grants, commands)))
    decreases |commands|
  {
    hide NoDuplicates, Changes, Applied, FactOf;
    if commands == [] {
      assert FactsOf(user, grants, commands) == [];
    } else {
      var n := |commands| - 1;
      ReplayedIsDuplicateFree(user, grants, commands[..n]);
      var facts := FactsOf(user, grants, commands[..n]);
      if Changes(ReplayFrom(grants, facts), commands[n]) {
        ReplayOneMore(grants, facts, FactOf(user, commands[n]));
        ChangeKeepsDuplicateFree(user, ReplayFrom(grants, facts), commands[n]);
      }
    }
  }

  class UserRoleGrants {
    const userId: UserId
    const version: nat
    var grants: seq<RoleGrant>
    /** The root's buffer of facts not yet pulled. */
    var facts: seq<Fact>

    ghost predicate Valid()
      reads this
    {
      NoDuplicates(grants)
    }

    constructor (userId: UserId, version: nat, grants: seq<RoleGrant>)
      requires NoDuplicates(grants)
      ensures this.userId == userId && this.version == version && this.grants == grants && facts == [] && Valid()
    {
      this.userId, this.version, this.grants := userId, version, grants;
      facts := [];
    }

    /** Construction from storage is refused for a list that holds a grant twice. */
    static method Rehydrate(userId: UserId, version: nat, grants: seq<RoleGrant>) returns (root: Option<UserRoleGrants>)
      ensures root.Some? <==> NoDuplicates(grants)
      ensures root.Some? ==> fresh(root.value) && root.value.Valid() && root.value.userId == userId
      ensures root.Some? ==> root.value.version == version && root.value.grants == grants && root.value.facts == []
    {
      for i := 0 to |grants|
        invariant forall x, y :: 0 <= x < y < |grants| && x < i ==> grants[x] != grants[y]
      {
        for j := i + 1 to |grants|
          invariant forall y :: i < y < j ==> grants[i] != grants[y]
        {
          if grants[i] == grants[j] { return None; }
        }
      }
      var created := new UserRoleGrants(userId, version, grants);
      root := Some(created);
    }

    /** Refused (`DuplicateRoleGrantError`) when the grant is already held; otherwise it goes last and is recorded. */
    method GrantRole(g: RoleGrant) returns (granted: bool)
      requires Valid()
      modifies this
      ensures Valid() && granted == (g !in old(grants))
      ensures grants == if granted then old(grants) + [g] else old(grants)
      ensures facts == if granted then old(facts) + [RoleGranted(userId, g.role, g.scope.Club())] else old(facts)
      ensures facts == old(facts) + FactsOf(userId, old(grants), [Grant(g)])
      ensures grants == ReplayFrom(old(grants), facts[|old(facts)|..])
    {
      OneCommand(userId, grants, Grant(g));
      if g in grants { return false; }
      grants := grants + [g];
      facts := facts + [RoleGranted(userId, g.role, g.scope.Club())];
      assert facts[|old(facts)|..] == [FactOf(userId, Grant(g))];
      granted := true;
    }

    /** Takes the grant out where it stands and records that; does nothing when it is not held. */
    method RevokeRole(role: DomainRole, scope: RoleScope)
      requires Valid()
      modifies this
      ensures Valid() && RoleGrant(role, scope) !in grants
      ensures IsWithout(old(grants), RoleGrant(role, scope), grants)
      ensures facts == if RoleGrant(role, scope) in old(grants)
                       then old(facts) + [RoleRevoked(userId, role, scope.Club())] else old(facts)
      ensures facts == old(facts) + FactsOf(userId, old(grants), [Revoke(role, scope)])
      ensures grants == ReplayFrom(old(grants), facts[|old(facts)|..])
    {
      OneCommand(userId, grants, Revoke(role, scope));
      var target := RoleGrant(role, scope);
      WithoutKeeps(grants, target);
      WithoutRemovesOne(grants, target);
      if target !in grants { return; }
      grants := Without(grants, target);
      facts := facts + [RoleRevoked(userId, role, scope.Club())];
      assert facts[|old(facts)|..] == [FactOf(userId, Revoke(role, scope))];
    }

    /** Hands over the recorded facts once. */
    method PullEvents() returns (pulled: seq<Fact>)
      modifies this`facts
      ensures pulled == old(facts) && facts == []
    {
      pulled := facts;
      facts := [];
    }
  }

  lemma OneCommand(user: UserId, grants: seq<RoleGrant>, c: Command)
    ensures FactsOf(user, grants, [c]) == if Changes(grants, c) then [FactOf(user, c)] else []
    ensures ReplayFrom(grants, []) == grants && ReplayFrom(grants, [FactOf(user, c)]) == Applied(grants, FactOf(user, c))
  {
    assert [c][..0] == [] && FactsOf(user, grants, []) == [];
    assert [FactOf(user, c)][..0] == [];
  }

  // ---------------------------------------------------------------------------------------------
  // One attempt of the unit of work
  // ---------------------------------------------------------------------------------------------

  class UnitOfWork {
    const roleGrants: CommittedMap<UserId, UserRoleGrants>
    var recordedEvents: seq<Fact>

    constructor ()
      ensures fresh(roleGrants) && roleGrants.entries == map[] && recordedEvents == []
    {
      roleGrants := new CommittedMap();
      recordedEvents := [];
    }
  }

  class RunningAttempt {
    const unitOfWork: UnitOfWork
    const tracker: RollbackTrackedMap<UserId, UserRoleGrants>
    var pendingFacts: seq<Fact>

    ghost predicate Valid()
      reads this, unitOfWork, unitOfWork.roleGrants, unitOfWork.roleGrants.entries.Values
    {
      && tracker.committed == unitOfWork.roleGrants
      && (forall u :: u in unitOfWork.roleGrants.entries ==>
            unitOfWork.roleGrants.entries[u].userId == u && unitOfWork.roleGrants.entries[u].Valid())
    }

    constructor (unitOfWork: UnitOfWork)
      requires forall u :: u in unitOfWork.roleGrants.entries ==>
                 unitOfWork.roleGrants.entries[u].userId == u && unitOfWork.roleGrants.entries[u].Valid()
      ensures Valid() && this.unitOfWork == unitOfWork && pendingFacts == []
      ensures fresh(tracker) && tracker.prior == map[] && tracker.written == map[]
    {
      this.unitOfWork := unitOfWork;
      tracker := new RollbackTrackedMap(unitOfWork.roleGrants);
      pendingFacts := [];
    }

    /** A fresh copy, never the stored root: changes to it are not seen until it is saved. */
    method FindByUser(user: UserId) returns (root: UserRoleGrants)
      requires Valid()
      ensures fresh(root) && root.Valid() && root.userId == user && root.facts == []
      ensures root.grants == if user in unitOfWork.roleGrants.entries then unitOfWork.roleGrants.entries[user].grants else []
      ensures root.version == if user in unitOfWork.roleGrants.entries then unitOfWork.roleGrants.entries[user].version else 0
    {
      var entries := unitOfWork.roleGrants.entries;
      if user in entries {
        root := new UserRoleGrants(user, entries[user].version, entries[user].grants);
      } else {
        root := new UserRoleGrants(user, 0, []);
      }
    }

    /** First save of a root; refused when the user already has one. Its facts leave the root for this attempt. */
    method Add(root: UserRoleGrants) returns (saved: bool)
      requires Valid() && root.Valid() && root !in unitOfWork.roleGrants.entries.Values
      modifies this`pendingFacts, tracker, unitOfWork.roleGrants, root`facts
      ensures Valid() && saved == (root.userId !in old(unitOfWork.roleGrants.entries))
      ensures saved ==> Stored(old(unitOfWork.roleGrants.entries), root.userId, root.grants, 1, unitOfWork.roleGrants.entries)
      ensures saved ==> fresh(unitOfWork.roleGrants.entries[root.userId])
      ensures saved ==> Tracked(old(unitOfWork.roleGrants.entries), old(tracker.prior), old(tracker.written), root.userId,
                          unitOfWork.roleGrants.entries, tracker.prior, tracker.written)
      ensures saved ==> pendingFacts == old(pendingFacts) + old(root.facts) && root.facts == []
      ensures !saved ==> unitOfWork.roleGrants.entries == old(unitOfWork.roleGrants.entries) && pendingFacts == old(pendingFacts)
                         && root.facts == old(root.facts)
    {
      if root.userId in unitOfWork.roleGrants.entries { return false; }
      Save(root, 1);
      saved := true;
    }

    /** Later saves; refused unless the stored version is the one the root was loaded at. */
    method Update(root: UserRoleGrants) returns (saved: bool)
      requires Valid() && root.Valid() && root !in unitOfWork.roleGrants.entries.Values
      modifies this`pendingFacts, tracker, unitOfWork.roleGrants, root`facts
      ensures Valid()
      ensures saved <==> root.userId in old(unitOfWork.roleGrants.entries) &&
                         old(unitOfWork.roleGrants.entries)[root.userId].version == root.version
      ensures saved ==> Stored(old(unitOfWork.roleGrants.entries), root.userId, root.grants, root.version + 1, unitOfWork.roleGrants.entries)
      ensures saved ==> fresh(unitOfWork.roleGrants.entries[root.userId])
      ensures saved ==> Tracked(old(unitOfWork.roleGrants.entries), old(tracker.prior), old(tracker.written), root.userId,
                          unitOfWork.roleGrants.entries, tracker.prior, tracker.written)
      ensures saved ==> pendingFacts == old(pendingFacts) + old(root.facts) && root.facts == []
      ensures !saved ==> unitOfWork.roleGrants.entries == old(unitOfWork.roleGrants.entries) && pendingFacts == old(pendingFacts)
                         && root.facts == old(root.facts)
    {
      var entries := unitOfWork.roleGrants.entries;
      if root.userId !in entries || entries[root.userId].version != root.version { return false; }
      Save(root, entries[root.userId].version + 1);
      saved := true;
    }

    method Save(root: UserRoleGrants, version: nat)
      requires Valid() && root.Valid() && root !in unitOfWork.roleGrants.entries.Values
      modifies this`pendingFacts, tracker, unitOfWork.roleGrants, root`facts
      ensures Valid()
      ensures Stored(old(unitOfWork.roleGrants.entries), root.userId, root.grants, version, unitOfWork.roleGrants.entries)
      ensures fresh(unitOfWork.roleGrants.entries[root.userId])
      ensures Tracked(old(unitOfWork.roleGrants.entries), old(tracker.prior), old(tracker.written), root.userId,
                unitOfWork.roleGrants.entries, tracker.prior, tracker.written)
      ensures pendingFacts == old(pendingFacts) + old(root.facts) && root.facts == []
    {
      tracker.Remember(root.userId);
      var instance := new UserRoleGrants(root.userId, version, root.grants);
      tracker.Write(root.userId, instance);
      var pulled := root.PullEvents();
      pendingFacts := pendingFacts + pulled;
    }

    /** The body returned: its facts become recorded events. */
    method Succeed()
      modifies unitOfWork`recordedEvents
      ensures unitOfWork.recordedEvents == old(unitOfWork.recordedEvents) + pendingFacts
    {
      unitOfWork.recordedEvents := unitOfWork.recordedEvents + pendingFacts;
    }

    /** The body threw: its writes are undone where they still stand, and its facts are dropped. */
    method Fail()
      requires tracker.committed == unitOfWork.roleGrants
      modifies unitOfWork.roleGrants
      ensures IsRestored(old(unitOfWork.roleGrants.entries), tracker.prior, tracker.written, unitOfWork.roleGrants.entries)
    {
      tracker.Rollback();
    }
  }

  /** One root has been replaced by a new instance with these grants and this version. */
  ghost predicate Stored(
    before: map<UserId, UserRoleGrants>, user: UserId, grants: seq<RoleGrant>, version: nat, after: map<UserId, UserRoleGrants>)
    reads after.Values
  {
    && user in after && after == before[user := after[user]]
    && after[user].userId == user && after[user].grants == grants && after[user].version == version && after[user].facts == []
  }

  /** The tracker remembers what it is about to replace, and what it wrote. */
  ghost predicate Tracked(
    before: map<UserId, UserRoleGrants>, prior: map<UserId, Option<UserRoleGrants>>, written: map<UserId, UserRoleGrants>,
    user: UserId, after: map<UserId, UserRoleGrants>, prior': map<UserId, Option<UserRoleGrants>>, written': map<UserId, UserRoleGrants>)
  {
    user in after && prior' == Remembered(before, prior, written, user) && written' == written[user := after[user]]
  }
}
