/**
 Proposals at breed scope: what the validator accepts for a mandatory Best of Breed and Best Opposite Sex, and
 exactly when it leaves a judge a legal proposal (fci-award-policy.ts:240-418).
 */
module BreedAwards {
  import opened Wrappers
  import opened RulesetModel
  import opened EffectiveRulesets
  import opened FeederGraph
  import opened MergeById
  import opened AwardPolicy
  import opened MandatoryAwards

  /** Wherever a dog appears, it appears under the same sex tag. */
  ghost predicate OneSexPerDog(streams: seq<CandidateStream>) {
    forall i, j, x, y :: 0 <= i < |streams| && 0 <= j < |streams| ==>
      x in streams[i].candidates && y in streams[j].candidates && x.entryRef == y.entryRef ==>
      streams[i].sex == streams[j].sex
  }

  lemma {:induction false} SexOfDog(streams: seq<CandidateStream>, i: nat, x: StreamCandidate)
    requires OneSexPerDog(streams) && i < |streams| && x in streams[i].candidates
    ensures SexOfCandidate(streams, x.entryRef) == streams[i].sex
    decreases |streams|
  {
    if Carries(streams[0], x.entryRef) {
      var k :| 0 <= k < |streams[0].candidates| && streams[0].candidates[k].entryRef == x.entryRef;
      assert streams[0].candidates[k] in streams[0].candidates;
    } else {
      assert i > 0;
      var tail := streams[1..];
      assert forall j :: 0 <= j < |tail| ==> tail[j] == streams[j + 1];
      assert tail[i - 1] == streams[i];
      SexOfDog(tail, i - 1, x);
    }
  }

  lemma TwoBreedRefs(c: Content, x: Assignment, y: Assignment)
    requires AwardOf(c, x.awardTypeId).Some? && AwardOf(c, y.awardTypeId).Some?
    requires var a, b := AwardOf(c, x.awardTypeId).value, AwardOf(c, y.awardTypeId).value;
             a.HigherScope? && b.HigherScope? && a.level == b.level == Breed
    ensures BreedRefs(c, [x, y]) == [x.entryRef, y.entryRef]
  {
    hide AwardOf;
    assert [x, y][1..] == [y] && [y][1..] == [];
    assert BreedRefs(c, [y]) == [y.entryRef];
  }

  /** The breed awards are a Best of Breed and a Best Opposite Sex drawing on the same feeders and grade. */
  ghost predicate IsPair(c: Content, a: AwardType, b: AwardType) {
    && AwardsAt(c.awards, Breed) == [a, b]
    && a.fedBy == b.fedBy && a.minimumGradeId == b.minimumGradeId
    && !a.isDiscretionary && !b.isDiscretionary
  }

  lemma PairMembers(c: Content, a: AwardType, b: AwardType)
    requires IsPair(c, a, b)
    ensures a in c.awards && b in c.awards && a.HigherScope? && b.HigherScope? && a.level == b.level == Breed
  {
    var r := AwardsAt(c.awards, Breed);
    assert r[0] == a && r[1] == b;
    assert a in r && b in r;
  }

  /** A male and a female, one per award, make a legal breed proposal. */
  lemma PairAccepted(c: Content, streams: seq<CandidateStream>, a: AwardType, b: AwardType, m: EntryRef, f: EntryRef)
    requires UniqueContent(c) && IsPair(c, a, b) && a.HigherScope? && b.HigherScope?
    requires DogAcceptable(c, a, streams, m) && DogAcceptable(c, b, streams, f)
    requires SexOfCandidate(streams, m) == Some(Male) && SexOfCandidate(streams, f) == Some(Female)
    ensures Accepted(c, Breed, streams, [Assignment(m, a.id), Assignment(f, b.id)])
  {
    hide DogAcceptable, UniqueContent, SexOfCandidate, Owed;
    PairMembers(c, a, b);
    ListedIsFound(c, a);
    ListedIsFound(c, b);
    var x, y := Assignment(m, a.id), Assignment(f, b.id);
    TwoBreedRefs(c, x, y);
    hide BreedRefs, AwardOf;
    assert [x, y][0].awardTypeId == a.id && [x, y][1].awardTypeId == b.id;
    assert forall d :: d in [a, b] ==> d == a || d == b;
  }

  /** The two awards of a pair accept the same dogs and are eligible together. */
  lemma PairAlike(c: Content, a: AwardType, b: AwardType, streams: seq<CandidateStream>)
    requires IsPair(c, a, b) && a.HigherScope? && b.HigherScope?
    ensures forall ref :: DogAcceptable(c, a, streams, ref) <==> DogAcceptable(c, b, streams, ref)
    ensures AwardIsEligible(c, a, Breed, streams) <==> AwardIsEligible(c, b, Breed, streams)
  {
    hide Matched, StreamHasQualifying, MeetsMinimum;
    assert forall s :: Qualifies(c, a, s) <==> Qualifies(c, b, s);
    hide Qualifies;
  }

  lemma NothingOwed(c: Content, streams: seq<CandidateStream>, a: AwardType, b: AwardType)
    requires IsPair(c, a, b) && a.HigherScope? && b.HigherScope? && !AwardIsEligible(c, a, Breed, streams)
    ensures Accepted(c, Breed, streams, [])
  {
    PairAlike(c, a, b, streams);
    hide AwardIsEligible, DogAcceptable;
    assert forall d :: d in [a, b] ==> d == a || d == b;
  }

  // ---------------------------------------------------------------------------------------------
  // What an accepted proposal is
  // ---------------------------------------------------------------------------------------------

  ghost predicate AllLegal(c: Content, streams: seq<CandidateStream>, proposed: seq<Assignment>) {
    forall i :: 0 <= i < |proposed| ==> OneHigherScope(c, Breed, streams, proposed[i])
  }

  ghost predicate DistinctDogs(proposed: seq<Assignment>) {
    forall i, j :: 0 <= i < j < |proposed| ==> proposed[i].entryRef != proposed[j].entryRef
  }

  ghost predicate OppositeSexes(streams: seq<CandidateStream>, x: EntryRef, y: EntryRef) {
    var first, second := SexOfCandidate(streams, x), SexOfCandidate(streams, y);
    (first == Some(Male) && second == Some(Female)) || (first == Some(Female) && second == Some(Male))
  }

  ghost predicate DebtsPaid(c: Content, streams: seq<CandidateStream>, proposed: seq<Assignment>) {
    forall a :: a in AwardsAt(c.awards, Breed) && Owed(c, a, Breed, streams) ==> Proposed(proposed, a.id)
  }

  /** Legal assignments are all to breed awards. */
  lemma {:induction false} RefsOfLegal(c: Content, streams: seq<CandidateStream>, proposed: seq<Assignment>)
    requires AllLegal(c, streams, proposed)
    ensures BreedRefs(c, proposed) == seq(|proposed|, i requires 0 <= i < |proposed| => proposed[i].entryRef)
    decreases |proposed|
  {
    hide DogAcceptable, AwardOf;
    if proposed != [] {
      assert OneHigherScope(c, Breed, streams, proposed[0]);
      assert forall i :: 0 <= i < |proposed[1..]| ==> proposed[1..][i] == proposed[i + 1];
      RefsOfLegal(c, streams, proposed[1..]);
    }
  }

  /**
   A proposal is accepted at breed scope exactly when its assignments are legal, its dogs are distinct, nothing owed
   is missing, and, only if it has exactly two assignments, the two dogs have opposite sex tags.
   */
  lemma AcceptedAtBreedIff(c: Content, streams: seq<CandidateStream>, proposed: seq<Assignment>)
    ensures Accepted(c, Breed, streams, proposed) <==>
            && AllLegal(c, streams, proposed) && DistinctDogs(proposed) && DebtsPaid(c, streams, proposed)
            && (|proposed| == 2 ==> OppositeSexes(streams, proposed[0].entryRef, proposed[1].entryRef))
  {
    hide OneHigherScope, Owed, SexOfCandidate, BreedRefs;
    if AllLegal(c, streams, proposed) {
      RefsOfLegal(c, streams, proposed);
      var refs := BreedRefs(c, proposed);
      assert forall i :: 0 <= i < |proposed| ==> refs[i] == proposed[i].entryRef;
      assert AllDifferent(refs) <==> DistinctDogs(proposed);
    }
  }

  // ---------------------------------------------------------------------------------------------
  // Exactly when a legal proposal exists
  // ---------------------------------------------------------------------------------------------

  /** A dog of each sex tag that the validator accepts for the pair. */
  ghost predicate OppositePair(c: Content, a: AwardType, streams: seq<CandidateStream>)
    requires a.HigherScope?
  {
    exists m, f :: && DogAcceptable(c, a, streams, m) && DogAcceptable(c, a, streams, f)
                   && SexOfCandidate(streams, m) == Some(Male) && SexOfCandidate(streams, f) == Some(Female)
  }

  ghost predicate ThreeDogs(c: Content, a: AwardType, streams: seq<CandidateStream>)
    requires a.HigherScope?
  {
    exists d, e, f :: && d != e && e != f && d != f && DogAcceptable(c, a, streams, d)
                      && DogAcceptable(c, a, streams, e) && DogAcceptable(c, a, streams, f)
  }

  /** Three acceptable dogs of any sex make a legal breed proposal: the opposite-sex rule looks at two assignments only. */
  lemma ThreeDogsAccepted(c: Content, streams: seq<CandidateStream>, a: AwardType, b: AwardType, d: EntryRef, e: EntryRef, f: EntryRef)
    requires UniqueContent(c) && IsPair(c, a, b) && a.HigherScope? && d != e && e != f && d != f
    requires DogAcceptable(c, a, streams, d) && DogAcceptable(c, a, streams, e) && DogAcceptable(c, a, streams, f)
    ensures Accepted(c, Breed, streams, [Assignment(d, a.id), Assignment(e, b.id), Assignment(f, a.id)])
  {
    var proposed := [Assignment(d, a.id), Assignment(e, b.id), Assignment(f, a.id)];
    PairMembers(c, a, b);
    ListedIsFound(c, a);
    ListedIsFound(c, b);
    PairAlike(c, a, b, streams);
    hide DogAcceptable, UniqueContent, Owed, AwardOf;
    assert AllLegal(c, streams, proposed) && DistinctDogs(proposed);
    assert proposed[0].awardTypeId == a.id && proposed[1].awardTypeId == b.id;
    assert forall x :: x in [a, b] ==> x == a || x == b;
    hide AllLegal, DistinctDogs;
    AcceptedAtBreedIff(c, streams, proposed);
  }

  /** The two awards of the pair have different ids. */
  lemma PairIds(c: Content, a: AwardType, b: AwardType)
    requires UniqueContent(c) && IsPair(c, a, b)
    ensures a.id != b.id
  {
    AwardsAtIds(c.awards, Breed);
    assert AwardsAt(c.awards, Breed)[0] == a && AwardsAt(c.awards, Breed)[1] == b;
  }

  lemma {:induction false} AwardsAtIds(awards: seq<AwardType>, level: Level)
    requires UniqueIds(awards, AwardIdOf)
    ensures forall i, j :: 0 <= i < j < |AwardsAt(awards, level)| ==> AwardsAt(awards, level)[i].id != AwardsAt(awards, level)[j].id
    decreases |awards|
  {
    if awards != [] {
      var rest := awards[1..];
      assert forall i :: 0 <= i < |rest| ==> rest[i] == awards[i + 1];
      AwardsAtIds(rest, level);
      forall x | x in AwardsAt(rest, level) ensures x.id != awards[0].id {
        var i :| 0 <= i < |rest| && rest[i] == x;
        assert AwardIdOf(awards[i + 1]) != AwardIdOf(awards[0]);
      }
    }
  }

  /** An accepted proposal that pays for an eligible pair has a dog of each sex, or three dogs. */
  lemma AcceptedNeedsDogs(c: Content, streams: seq<CandidateStream>, a: AwardType, b: AwardType, proposed: seq<Assignment>)
    requires UniqueContent(c) && IsPair(c, a, b) && a.HigherScope? && b.HigherScope?
    requires Accepted(c, Breed, streams, proposed) && AwardIsEligible(c, a, Breed, streams)
    ensures OppositePair(c, a, streams) || ThreeDogs(c, a, streams)
  {
    AcceptedAtBreedIff(c, streams, proposed);
    PairAlike(c, a, b, streams);
    PairIds(c, a, b);
    assert a in AwardsAt(c.awards, Breed) && b in AwardsAt(c.awards, Breed) by {
      assert AwardsAt(c.awards, Breed)[0] == a && AwardsAt(c.awards, Breed)[1] == b;
    }
    hide AwardIsEligible;
    var i :| 0 <= i < |proposed| && proposed[i].awardTypeId == a.id;
    var j :| 0 <= j < |proposed| && proposed[j].awardTypeId == b.id;
    hide Accepted, UniqueContent;
    assert i != j;
    forall k | 0 <= k < |proposed| ensures DogAcceptable(c, a, streams, proposed[k].entryRef) {
      assert OneHigherScope(c, Breed, streams, proposed[k]);
      LegalDog(c, streams, a, b, proposed[k]);
    }
    hide IsPair, SexOfCandidate, DogAcceptable;
    if |proposed| > 2 {
      assert proposed[0].entryRef != proposed[1].entryRef && proposed[1].entryRef != proposed[2].entryRef
             && proposed[0].entryRef != proposed[2].entryRef;
    }
  }

  lemma LegalDog(c: Content, streams: seq<CandidateStream>, a: AwardType, b: AwardType, x: Assignment)
    requires IsPair(c, a, b) && a.HigherScope? && b.HigherScope? && OneHigherScope(c, Breed, streams, x)
    ensures DogAcceptable(c, a, streams, x.entryRef)
  {
    FoundIsListed(c, x.awardTypeId);
    var found := AwardOf(c, x.awardTypeId).value;
    hide AwardOf;
    assert found in AwardsAt(c.awards, Breed);
    assert found == a || found == b;
    PairAlike(c, a, b, streams);
    hide DogAcceptable;
  }

  /**
   With breed awards that are a mandatory pair over the same feeders, a legal proposal exists at breed scope if and
   only if the pair is not eligible, or has an acceptable dog of each sex tag, or has three acceptable dogs.
   */
  lemma BreedProposalExistsIff(c: Content, streams: seq<CandidateStream>, a: AwardType, b: AwardType)
    requires UniqueContent(c) && IsPair(c, a, b) && a.HigherScope? && b.HigherScope?
    ensures (exists proposed :: Accepted(c, Breed, streams, proposed)) <==>
            !AwardIsEligible(c, a, Breed, streams) || OppositePair(c, a, streams) || ThreeDogs(c, a, streams)
  {
    PairAlike(c, a, b, streams);
    hide DogAcceptable, UniqueContent, SexOfCandidate, AwardIsEligible, Accepted, IsPair;
    if !AwardIsEligible(c, a, Breed, streams) {
      NothingOwed(c, streams, a, b);
    } else if OppositePair(c, a, streams) {
      var m, f :| && DogAcceptable(c, a, streams, m) && DogAcceptable(c, a, streams, f)
                  && SexOfCandidate(streams, m) == Some(Male) && SexOfCandidate(streams, f) == Some(Female);
      PairAccepted(c, streams, a, b, m, f);
    } else if ThreeDogs(c, a, streams) {
      var d, e, f :| && d != e && e != f && d != f && DogAcceptable(c, a, streams, d)
                     && DogAcceptable(c, a, streams, e) && DogAcceptable(c, a, streams, f);
      ThreeDogsAccepted(c, streams, a, b, d, e, f);
    } else if proposed: seq<Assignment> :| Accepted(c, Breed, streams, proposed) {
      AcceptedNeedsDogs(c, streams, a, b, proposed);
    }
  }

  /** With consistent grades and sex tags, an eligible pair has an acceptable dog of each sex. */
  lemma EligibleHasPair(c: Content, streams: seq<CandidateStream>, a: AwardType)
    requires a.HigherScope? && OneGradePerDog(streams) && OneSexPerDog(streams) && AwardIsEligible(c, a, Breed, streams)
    ensures OppositePair(c, a, streams)
  {
    hide DogAcceptable, OneGradePerDog, OneSexPerDog, SexOfCandidate;
    var i :| 0 <= i < |streams| && Qualifies(c, a, streams[i]) && streams[i].sex == Some(Male);
    var j :| 0 <= j < |streams| && Qualifies(c, a, streams[j]) && streams[j].sex == Some(Female);
    hide Qualifies;
    var m := QualifyingDog(c, a, streams, i);
    var f := QualifyingDog(c, a, streams, j);
    SexOfDog(streams, i, m);
    SexOfDog(streams, j, f);
  }

  /** So with one grade and one sex tag per dog the mandatory pair never blocks a judge. */
  lemma NeverBlockedAtBreed(c: Content, streams: seq<CandidateStream>, a: AwardType, b: AwardType)
    requires UniqueContent(c) && IsPair(c, a, b) && OneGradePerDog(streams) && OneSexPerDog(streams)
    ensures exists proposed :: Accepted(c, Breed, streams, proposed)
  {
    PairMembers(c, a, b);
    hide IsPair, UniqueContent, OneGradePerDog, OneSexPerDog, OppositePair, ThreeDogs, AwardIsEligible;
    if AwardIsEligible(c, a, Breed, streams) { EligibleHasPair(c, streams, a); }
    BreedProposalExistsIff(c, streams, a, b);
  }

  /** At breed scope an award is eligible exactly when it has an acceptable dog of each sex tag. */
  lemma BreedViewsAgree(c: Content, streams: seq<CandidateStream>, a: AwardType)
    requires a.HigherScope? && OneGradePerDog(streams) && OneSexPerDog(streams)
    ensures AwardIsEligible(c, a, Breed, streams) <==> OppositePair(c, a, streams)
  {
    hide OneGradePerDog, OneSexPerDog, SexOfCandidate, DogAcceptable, Qualifies;
    if AwardIsEligible(c, a, Breed, streams) { EligibleHasPair(c, streams, a); }
    if OppositePair(c, a, streams) {
      var m, f :| && DogAcceptable(c, a, streams, m) && DogAcceptable(c, a, streams, f)
                  && SexOfCandidate(streams, m) == Some(Male) && SexOfCandidate(streams, f) == Some(Female);
      AcceptableOfSex(c, a, streams, m, Male);
      AcceptableOfSex(c, a, streams, f, Female);
    }
  }

  /** The acceptable dogs are the ones that may be proposed. */
  lemma LegalIffAcceptable(c: Content, streams: seq<CandidateStream>, a: AwardType, ref: EntryRef)
    requires UniqueContent(c) && a in AwardsAt(c.awards, Breed)
    ensures OneHigherScope(c, Breed, streams, Assignment(ref, a.id)) <==> DogAcceptable(c, a, streams, ref)
  {
    ListedIsFound(c, a);
    hide AwardOf, DogAcceptable;
  }

  /** With one sex tag per dog, an acceptable dog of a sex comes from a qualifying stream of that sex. */
  lemma AcceptableOfSex(c: Content, a: AwardType, streams: seq<CandidateStream>, ref: EntryRef, sex: Sex)
    requires a.HigherScope? && OneSexPerDog(streams)
    requires DogAcceptable(c, a, streams, ref) && SexOfCandidate(streams, ref) == Some(sex)
    ensures exists i :: 0 <= i < |streams| && Qualifies(c, a, streams[i]) && streams[i].sex == Some(sex)
  {
    hide MeetsMinimum, Matched, FindCandidate, FeederCandidates, OneSexPerDog, SexOfCandidate;
    var all := FeederCandidates(a.fedBy, streams);
    FindCandidateSpec(all, ref);
    var y := FindCandidate(all, ref).value;
    FeederCandidatesContents(a.fedBy, streams, y);
    var i :| 0 <= i < |streams| && Matched(a.fedBy, streams[i]) && y in streams[i].candidates;
    SexOfDog(streams, i, y);
    assert Qualifies(c, a, streams[i]);
  }

  // ---------------------------------------------------------------------------------------------
  // Two inputs at the edges of the rule
  // ---------------------------------------------------------------------------------------------

  /** A resolved snapshot whose breed awards are a mandatory pair fed by one certificate. */
  lemma PairContent() returns (c: Content, a: AwardType, b: AwardType, feeder: AwardTypeId, grade: Grade)
    ensures Resolved(c) && IsPair(c, a, b) && a.HigherScope? && b.HigherScope?
    ensures a.fedBy == [AwardFeeder(feeder)] && a.minimumGradeId == grade.id && MeetsMinimum(c, grade.id, grade.id)
  {
    grade, feeder := Grade(GradeId("excellent"), 0), AwardTypeId("certificate");
    var scale := GradeScale(GradeScaleId("adult"), [grade]);
    a := HigherScope(AwardTypeId("best-of-breed"), grade.id, None, false, Breed, [AwardFeeder(feeder)]);
    b := HigherScope(AwardTypeId("best-opposite-sex"), grade.id, None, false, Breed, [AwardFeeder(feeder)]);
    c := Content([], [scale], [a, b], []);
    assert a.id != b.id by { assert |a.id.text| != |b.id.text|; }
    TwoAwardsNoClasses(c, scale, a, b);
    assert [a, b][1..] == [b] && [b][1..] == [];
    assert AwardsAt([b], Breed) == [b];
    assert scale.GradeOf(grade.id) == Some(grade);
  }

  lemma TwoAwardsNoClasses(c: Content, scale: GradeScale, a: AwardType, b: AwardType)
    requires c == Content([], [scale], [a, b], []) && a.HigherScope? && b.HigherScope? && a.id != b.id
    requires forall i :: 0 <= i < |a.fedBy| ==> a.fedBy[i].AwardFeeder?
    requires forall i :: 0 <= i < |b.fedBy| ==> b.fedBy[i].AwardFeeder?
    ensures Resolved(c)
  {
    var g := GraphOf(c);
    OneById(a);
    assert [a, b][..1] == [a];
    assert g.awardById == map[a.id := a][b.id := b];
    forall d, s ensures !g.FedDirectly(d, s) {
      assert d in g.awardById ==> g.awardById[d] == a || g.awardById[d] == b;
    }
  }

  /** One dog, tagged male in one stream and female in another: the pair is eligible and no proposal is legal. */
  lemma ConflictingTagsBlock() returns (c: Content, streams: seq<CandidateStream>)
    ensures Resolved(c) && OneGradePerDog(streams)
    ensures forall proposed :: !Accepted(c, Breed, streams, proposed)
  {
    var a, b, feeder, grade;
    c, a, b, feeder, grade := PairContent();
    var dog := StreamCandidate(EntryRef("dog"), grade.id);
    streams := [AwardStream(feeder, Some(Male), [dog]), AwardStream(feeder, Some(Female), [dog])];
    hide Resolved, MeetsMinimum, IsPair, FindCandidate, FeederCandidates, OneGradePerDog;
    TwiceTagged(c, a, streams, feeder, dog);
    hide AwardIsEligible, DogAcceptable, SexOfCandidate;
    ResolvedIsUnique(c);
    BreedProposalExistsIff(c, streams, a, b);
  }

  lemma TwiceTagged(c: Content, a: AwardType, streams: seq<CandidateStream>, feeder: AwardTypeId, dog: StreamCandidate)
    requires a.HigherScope? && a.fedBy == [AwardFeeder(feeder)] && MeetsMinimum(c, dog.gradeId, a.minimumGradeId)
    requires streams == [AwardStream(feeder, Some(Male), [dog]), AwardStream(feeder, Some(Female), [dog])]
    ensures AwardIsEligible(c, a, Breed, streams)
    ensures forall ref :: DogAcceptable(c, a, streams, ref) ==> ref == dog.entryRef
    ensures SexOfCandidate(streams, dog.entryRef) == Some(Male) && OneGradePerDog(streams)
  {
    hide MeetsMinimum, FindCandidate, FeederCandidates;
    assert FeederMatchesStream(a.fedBy[0], streams[0]) && FeederMatchesStream(a.fedBy[0], streams[1]);
    hide FeederMatchesStream;
    assert MeetsMinimum(c, streams[0].candidates[0].gradeId, a.minimumGradeId);
    assert MeetsMinimum(c, streams[1].candidates[0].gradeId, a.minimumGradeId);
    assert Qualifies(c, a, streams[0]) && Qualifies(c, a, streams[1]);
    forall ref ensures DogAcceptable(c, a, streams, ref) ==> ref == dog.entryRef {
      OnlyDog(a.fedBy, streams, dog, dog, ref);
    }
    assert streams[0].candidates[0].entryRef == dog.entryRef;
  }

  lemma ResolvedIsUnique(c: Content)
    requires Resolved(c)
    ensures UniqueContent(c)
  {
  }

  /** Three males: Best of Breed twice and Best Opposite Sex once, all to one sex, is accepted. */
  lemma OneSexAccepted() returns (c: Content, streams: seq<CandidateStream>, proposed: seq<Assignment>)
    ensures Resolved(c) && OneGradePerDog(streams) && OneSexPerDog(streams)
    ensures Accepted(c, Breed, streams, proposed) && |proposed| == 3
    ensures forall i :: 0 <= i < |proposed| ==> SexOfCandidate(streams, proposed[i].entryRef) == Some(Male)
  {
    var a, b, feeder, grade;
    c, a, b, feeder, grade := PairContent();
    var d, e, f := EntryRef("d"), EntryRef("ee"), EntryRef("fff");
    assert d != e && e != f && d != f by { assert |d.text| == 1 && |e.text| == 2 && |f.text| == 3; }
    var x, y, z := StreamCandidate(d, grade.id), StreamCandidate(e, grade.id), StreamCandidate(f, grade.id);
    streams := [AwardStream(feeder, Some(Male), [x, y, z])];
    proposed := [Assignment(d, a.id), Assignment(e, b.id), Assignment(f, a.id)];
    hide Resolved, MeetsMinimum, IsPair, Accepted, SexOfCandidate, OneGradePerDog, OneSexPerDog, FeederMatchesStream, UniqueContent;
    SameGrades(a, streams, grade.id);
    ResolvedIsUnique(c);
    ThreeOfStream(c, streams, a, b, x, y, z);
  }

  lemma ThreeOfStream(
    c: Content, streams: seq<CandidateStream>, a: AwardType, b: AwardType, d: StreamCandidate, e: StreamCandidate, f: StreamCandidate)
    requires UniqueContent(c) && IsPair(c, a, b) && a.HigherScope? && |streams| == 1 && OneGradePerDog(streams)
    requires a.fedBy != [] && FeederMatchesStream(a.fedBy[0], streams[0])
    requires d.entryRef != e.entryRef && e.entryRef != f.entryRef && d.entryRef != f.entryRef
    requires streams[0].candidates == [d, e, f] && MeetsMinimum(c, d.gradeId, a.minimumGradeId)
    requires d.gradeId == e.gradeId == f.gradeId
    ensures Accepted(c, Breed, streams, [Assignment(d.entryRef, a.id), Assignment(e.entryRef, b.id), Assignment(f.entryRef, a.id)])
    ensures SexOfCandidate(streams, d.entryRef) == streams[0].sex && SexOfCandidate(streams, e.entryRef) == streams[0].sex
    ensures SexOfCandidate(streams, f.entryRef) == streams[0].sex
  {
    hide UniqueContent, MeetsMinimum, IsPair, Accepted, DogAcceptable, SexOfCandidate, OneGradePerDog, FeederMatchesStream;
    assert d in [d, e, f] && e in [d, e, f] && f in [d, e, f];
    OnlyStream(c, a, streams, d);
    OnlyStream(c, a, streams, e);
    OnlyStream(c, a, streams, f);
    ThreeDogsAccepted(c, streams, a, b, d.entryRef, e.entryRef, f.entryRef);
  }

  /** One stream with one grade throughout. */
  lemma SameGrades(a: AwardType, streams: seq<CandidateStream>, grade: GradeId)
    requires |streams| == 1 && forall x :: x in streams[0].candidates ==> x.gradeId == grade
    requires streams[0].AwardStream? && a.HigherScope? && a.fedBy == [AwardFeeder(streams[0].feederAwardTypeId)]
    ensures OneGradePerDog(streams) && OneSexPerDog(streams) && FeederMatchesStream(a.fedBy[0], streams[0])
  {
  }

  /** A dog of the only stream, which matches, is acceptable with its grade there and has the stream's tag. */
  lemma OnlyStream(c: Content, a: AwardType, streams: seq<CandidateStream>, x: StreamCandidate)
    requires a.HigherScope? && |streams| == 1 && a.fedBy != [] && FeederMatchesStream(a.fedBy[0], streams[0])
    requires x in streams[0].candidates && OneGradePerDog(streams) && MeetsMinimum(c, x.gradeId, a.minimumGradeId)
    ensures DogAcceptable(c, a, streams, x.entryRef) && SexOfCandidate(streams, x.entryRef) == streams[0].sex
  {
    hide MeetsMinimum;
    assert streams[1..] == [] && FeederCandidates(a.fedBy, streams) == streams[0].candidates;
    FindCandidateSpec(streams[0].candidates, x.entryRef);
    var i :| 0 <= i < |streams[0].candidates| && streams[0].candidates[i] == x;
    assert Carries(streams[0], x.entryRef);
  }
}
