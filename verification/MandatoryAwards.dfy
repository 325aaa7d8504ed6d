/**
 When the rule that mandatory awards must be proposed leaves a judge a legal proposal, and how the two
 views of the policy relate (fci-award-policy.ts:225-418).
 */
module MandatoryAwards {
  import opened Wrappers
  import opened RulesetModel
  import opened EffectiveRulesets
  import opened FeederGraph
  import opened MergeById
  import opened AwardPolicy

  lemma {:induction false} FindCandidateSpec(candidates: seq<StreamCandidate>, ref: EntryRef)
    ensures match FindCandidate(candidates, ref)
            case None => forall x :: x in candidates ==> x.entryRef != ref
            case Some(x) => x in candidates && x.entryRef == ref
    decreases |candidates|
  {
    if candidates != [] {
      assert candidates == [candidates[0]] + candidates[1..];
      FindCandidateSpec(candidates[1..], ref);
    }
  }

  lemma {:induction false} FeederCandidatesContents(fedBy: seq<Feeder>, streams: seq<CandidateStream>, x: StreamCandidate)
    ensures x in FeederCandidates(fedBy, streams) <==>
            exists i :: 0 <= i < |streams| && Matched(fedBy, streams[i]) && x in streams[i].candidates
    decreases |streams|
  {
    hide Matched;
    if streams != [] {
      var tail := streams[1..];
      FeederCandidatesContents(fedBy, tail, x);
      assert forall i :: 0 < i < |streams| ==> streams[i] == tail[i - 1];
      if i :| 0 <= i < |tail| && Matched(fedBy, tail[i]) && x in tail[i].candidates {
        assert streams[i + 1] == tail[i];
      }
    }
  }

  /** The awards a resolved snapshot lists are the ones its lookup finds. */
  lemma ListedIsFound(c: Content, a: AwardType)
    requires UniqueContent(c) && a in c.awards
    ensures AwardOf(c, a.id) == Some(a)
  {
    var i :| 0 <= i < |c.awards| && c.awards[i] == a;
    assert AwardIdOf(c.awards[i]) == a.id;
    FindSpec(c.awards, AwardIdOf, a.id);
  }

  lemma FoundIsListed(c: Content, id: AwardTypeId)
    ensures AwardOf(c, id).Some? ==> AwardOf(c, id).value in c.awards && AwardOf(c, id).value.id == id
  {
    FindSpec(c.awards, AwardIdOf, id);
  }

  /** Wherever a dog appears, it appears with the same grade. */
  ghost predicate OneGradePerDog(streams: seq<CandidateStream>) {
    forall i, j, x, y :: 0 <= i < |streams| && 0 <= j < |streams| ==>
      x in streams[i].candidates && y in streams[j].candidates && x.entryRef == y.entryRef ==>
      x.gradeId == y.gradeId
  }

  /** With one grade per dog, a qualifying stream has a dog the validator accepts. */
  lemma QualifyingDog(c: Content, a: AwardType, streams: seq<CandidateStream>, i: nat) returns (x: StreamCandidate)
    requires a.HigherScope? && i < |streams| && Qualifies(c, a, streams[i]) && OneGradePerDog(streams)
    ensures x in streams[i].candidates && DogAcceptable(c, a, streams, x.entryRef)
  {
    hide MeetsMinimum, Matched, FindCandidate, FeederCandidates;
    var s := streams[i];
    var k :| 0 <= k < |s.candidates| && MeetsMinimum(c, s.candidates[k].gradeId, a.minimumGradeId);
    x := s.candidates[k];
    var all := FeederCandidates(a.fedBy, streams);
    FeederCandidatesContents(a.fedBy, streams, x);
    FindCandidateSpec(all, x.entryRef);
    var y := FindCandidate(all, x.entryRef).value;
    FeederCandidatesContents(a.fedBy, streams, y);
  }

  /** A dog the validator accepts always comes from a qualifying stream. */
  lemma AcceptableDogQualifies(c: Content, a: AwardType, streams: seq<CandidateStream>, ref: EntryRef)
    requires a.HigherScope? && DogAcceptable(c, a, streams, ref)
    ensures exists i :: 0 <= i < |streams| && Qualifies(c, a, streams[i])
  {
    hide MeetsMinimum, Matched, FindCandidate, FeederCandidates;
    var all := FeederCandidates(a.fedBy, streams);
    FindCandidateSpec(all, ref);
    var y := FindCandidate(all, ref).value;
    FeederCandidatesContents(a.fedBy, streams, y);
    var i :| 0 <= i < |streams| && Matched(a.fedBy, streams[i]) && y in streams[i].candidates;
    assert Qualifies(c, a, streams[i]);
  }

  // ---------------------------------------------------------------------------------------------
  // Group and show scope
  // ---------------------------------------------------------------------------------------------

  /** Every mandatory, eligible award has a dog the validator would accept for it. */
  ghost predicate EveryDebtPayable(c: Content, level: Level, streams: seq<CandidateStream>) {
    forall a :: a in AwardsAt(c.awards, level) && Owed(c, a, level, streams) ==>
      exists ref :: DogAcceptable(c, a, streams, ref)
  }

  /** A proposal for the owed awards among `awards`, one each. */
  lemma {:induction false} PayDebts(c: Content, level: Level, streams: seq<CandidateStream>, awards: seq<AwardType>)
    returns (proposed: seq<Assignment>)
    requires UniqueContent(c) && EveryDebtPayable(c, level, streams)
    requires forall a :: a in awards ==> a in AwardsAt(c.awards, level)
    ensures forall i :: 0 <= i < |proposed| ==> OneHigherScope(c, level, streams, proposed[i])
    ensures forall a :: a in awards && a.HigherScope? && Owed(c, a, level, streams) ==> Proposed(proposed, a.id)
    decreases |awards|
  {
    hide DogAcceptable, Owed, UniqueContent;
    if awards == [] { return []; }
    var a := awards[0];
    assert a in awards;
    assert awards == [a] + awards[1..];
    proposed := PayDebts(c, level, streams, awards[1..]);
    if Owed(c, a, level, streams) {
      ListedIsFound(c, a);
      hide AwardOf;
      var ref :| DogAcceptable(c, a, streams, ref);
      var more := [Assignment(ref, a.id)] + proposed;
      forall b | b in awards && b.HigherScope? && Owed(c, b, level, streams) ensures Proposed(more, b.id) {
        if b == a {
          assert more[0].awardTypeId == b.id;
        } else {
          var i :| 0 <= i < |proposed| && proposed[i].awardTypeId == b.id;
          assert more[i + 1].awardTypeId == b.id;
        }
      }
      proposed := more;
    }
  }

  /**
   At group and show scope a legal proposal exists exactly when each mandatory, eligible award has a dog
   whose first candidacy is good enough.
   */
  lemma ProposalExistsIff(c: Content, level: Level, streams: seq<CandidateStream>)
    requires UniqueContent(c) && level != Breed
    ensures (exists proposed :: Accepted(c, level, streams, proposed)) <==> EveryDebtPayable(c, level, streams)
  {
    hide DogAcceptable, Owed, UniqueContent;
    if proposed: seq<Assignment> :| Accepted(c, level, streams, proposed) {
      forall a | a in AwardsAt(c.awards, level) && Owed(c, a, level, streams)
        ensures exists ref :: DogAcceptable(c, a, streams, ref)
      {
        var i :| 0 <= i < |proposed| && proposed[i].awardTypeId == a.id;
        ListedIsFound(c, a);
        assert OneHigherScope(c, level, streams, proposed[i]);
        assert DogAcceptable(c, a, streams, proposed[i].entryRef);
      }
    }
    if EveryDebtPayable(c, level, streams) {
      var proposed := PayDebts(c, level, streams, AwardsAt(c.awards, level));
      assert Accepted(c, level, streams, proposed);
    }
  }

  /** With one grade per dog the mandatory-award rule never blocks a judge at group or show scope. */
  lemma NeverBlocked(c: Content, level: Level, streams: seq<CandidateStream>)
    requires UniqueContent(c) && level != Breed && OneGradePerDog(streams)
    ensures exists proposed :: Accepted(c, level, streams, proposed)
  {
    hide DogAcceptable, UniqueContent, Accepted, Qualifies, OneGradePerDog;
    forall a | a in AwardsAt(c.awards, level) && Owed(c, a, level, streams)
      ensures exists ref :: DogAcceptable(c, a, streams, ref)
    {
      var i :| 0 <= i < |streams| && Qualifies(c, a, streams[i]);
      var x := QualifyingDog(c, a, streams, i);
    }
    ProposalExistsIff(c, level, streams);
  }

  /** At group and show scope an award is eligible exactly when some dog may be proposed for it. */
  lemma HigherScopeViewsAgree(c: Content, level: Level, streams: seq<CandidateStream>, a: AwardType)
    requires UniqueContent(c) && level != Breed && OneGradePerDog(streams) && a in AwardsAt(c.awards, level)
    ensures AwardIsEligible(c, a, level, streams) <==>
            exists ref :: OneHigherScope(c, level, streams, Assignment(ref, a.id))
  {
    hide DogAcceptable, UniqueContent, Qualifies, OneGradePerDog;
    ListedIsFound(c, a);
    hide AwardOf;
    if AwardIsEligible(c, a, level, streams) {
      var i :| 0 <= i < |streams| && Qualifies(c, a, streams[i]);
      var x := QualifyingDog(c, a, streams, i);
      assert OneHigherScope(c, level, streams, Assignment(x.entryRef, a.id));
    }
    if ref :| OneHigherScope(c, level, streams, Assignment(ref, a.id)) {
      AcceptableDogQualifies(c, a, streams, ref);
    }
  }

  // ---------------------------------------------------------------------------------------------
  // Two grades for one dog can block a judge
  // ---------------------------------------------------------------------------------------------

  /**
   A dog listed twice, first with a grade below the minimum: the mandatory show award is eligible through
   the second listing, the validator only looks at the first, and no proposal is legal.
   */
  lemma TwoGradesBlock() returns (c: Content, streams: seq<CandidateStream>)
    ensures Resolved(c)
    ensures forall proposed :: !Accepted(c, Show, streams, proposed)
  {
    var good, poor := Grade(GradeId("excellent"), 0), Grade(GradeId("good"), 1);
    assert good.id != poor.id by { assert |good.id.text| != |poor.id.text|; }
    var scale := GradeScale(GradeScaleId("adult"), [good, poor]);
    var feeder := AwardTypeId("best-in-group");
    var a := HigherScope(AwardTypeId("best-in-show"), good.id, None, false, Show, [AwardFeeder(feeder)]);
    var dog := EntryRef("dog");
    var first, second := StreamCandidate(dog, poor.id), StreamCandidate(dog, good.id);
    c := Content([], [scale], [a], []);
    streams := [AwardStream(feeder, None, [first]), AwardStream(feeder, None, [second])];
    OneAwardNoClasses(c, scale, a);
    GradesOfTwo(c, scale, good, poor);
    assert FeederMatchesStream(a.fedBy[0], streams[0]) && FeederMatchesStream(a.fedBy[0], streams[1]);
    assert MeetsMinimum(c, streams[1].candidates[0].gradeId, a.minimumGradeId);
    assert Qualifies(c, a, streams[1]);
    hide MeetsMinimum, FeederMatchesStream;
    assert a in AwardsAt(c.awards, Show) && Owed(c, a, Show, streams);
    forall ref ensures !DogAcceptable(c, a, streams, ref) {
      OnlyDog(a.fedBy, streams, first, second, ref);
    }
    ProposalExistsIff(c, Show, streams);
  }

  lemma OnlyDog(fedBy: seq<Feeder>, streams: seq<CandidateStream>, first: StreamCandidate, second: StreamCandidate, ref: EntryRef)
    requires |streams| == 2 && Matched(fedBy, streams[0]) && Matched(fedBy, streams[1])
    requires streams[0].candidates == [first] && streams[1].candidates == [second] && first.entryRef == second.entryRef
    ensures FindCandidate(FeederCandidates(fedBy, streams), ref) == if ref == first.entryRef then Some(first) else None
  {
    hide Matched;
    assert streams[1..] == [streams[1]] && streams[1..][1..] == [];
    assert FeederCandidates(fedBy, streams[1..]) == [second];
    assert FeederCandidates(fedBy, streams) == [first, second];
    assert [first, second][1..] == [second];
    assert FindCandidate([second], ref) == if ref == second.entryRef then Some(second) else None by {
      assert [second][1..] == [];
    }
  }

  lemma GradesOfTwo(c: Content, scale: GradeScale, good: Grade, poor: Grade)
    requires c.scales == [scale] && scale.grades == [good, poor] && good.id != poor.id && good.ordinal < poor.ordinal
    ensures MeetsMinimum(c, good.id, good.id) && !MeetsMinimum(c, poor.id, good.id)
  {
    assert [good, poor][1..] == [poor];
    assert Find([poor], (g: Grade) => g.id, poor.id) == Some(poor);
    assert scale.GradeOf(good.id) == Some(good) && scale.GradeOf(poor.id) == Some(poor);
  }

  lemma OneAwardNoClasses(c: Content, scale: GradeScale, a: AwardType)
    requires c == Content([], [scale], [a], []) && a.HigherScope?
    requires forall i :: 0 <= i < |a.fedBy| ==> a.fedBy[i].AwardFeeder?
    ensures Resolved(c)
  {
    var g := GraphOf(c);
    OneById(a);
    forall b, s ensures !g.FedDirectly(b, s) {
      assert b in g.awardById ==> g.awardById[b] == a;
    }
  }
}
