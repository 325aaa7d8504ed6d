/**
 Higher-scope awards in terms of feeders, streams, scales and ordinals alone (fci-award-policy.ts:227-238, 294-357,
 396-468, grade-comparison.ts:15-45).
 */
module HigherScopeRules {
  import opened Wrappers
  import opened RulesetModel
  import opened EffectiveRulesets
  import opened MergeById
  import opened AwardPolicy
  import opened MandatoryAwards

  // ---------------------------------------------------------------------------------------------
  // Grades
  // ---------------------------------------------------------------------------------------------

  ghost predicate HasGrade(s: GradeScale, id: GradeId) { exists g :: FirstGrade(s, id, g) }

  /** On the first scale that has both grades, the dog's is no worse than the minimum. */
  ghost predicate GoodEnough(scales: seq<GradeScale>, grade: GradeId, minimum: GradeId) {
    exists n, g, m ::
      && 0 <= n < |scales| && FirstGrade(scales[n], grade, g) && FirstGrade(scales[n], minimum, m) && g.ordinal <= m.ordinal
      && forall i :: 0 <= i < n ==> !(HasGrade(scales[i], grade) && HasGrade(scales[i], minimum))
  }

  /** The pair is taken from the first scale that has both. */
  ghost predicate IsPairOn(scales: seq<GradeScale>, n: nat, grade: GradeId, minimum: GradeId, g: Grade, m: Grade) {
    && n < |scales| && FirstGrade(scales[n], grade, g) && FirstGrade(scales[n], minimum, m)
    && forall i :: 0 <= i < n ==> !(HasGrade(scales[i], grade) && HasGrade(scales[i], minimum))
  }

  lemma HasGradeIff(s: GradeScale, id: GradeId)
    ensures HasGrade(s, id) <==> s.GradeOf(id).Some?
    ensures forall g :: FirstGrade(s, id, g) <==> s.GradeOf(id) == Some(g)
  {
    hide GradeScale.GradeOf, FirstGrade;
    forall g ensures FirstGrade(s, id, g) <==> s.GradeOf(id) == Some(g) { GradeOfIsFirst(s, id, g); }
    if s.GradeOf(id).Some? { assert FirstGrade(s, id, s.GradeOf(id).value); }
  }

  lemma {:induction false} GradePairIsFirst(scales: seq<GradeScale>, grade: GradeId, minimum: GradeId)
    ensures var r := GradePair(scales, grade, minimum);
            if r.Some? then exists n: nat :: IsPairOn(scales, n, grade, minimum, r.value.0, r.value.1)
            else forall i :: 0 <= i < |scales| ==> !(HasGrade(scales[i], grade) && HasGrade(scales[i], minimum))
    decreases |scales|
  {
    if scales != [] {
      var rest := scales[1..];
      HasGradeIff(scales[0], grade);
      HasGradeIff(scales[0], minimum);
      GradePairIsFirst(rest, grade, minimum);
      hide HasGrade, FirstGrade, GradeScale.GradeOf;
      assert forall i :: 0 < i < |scales| ==> scales[i] == rest[i - 1];
      if scales[0].GradeOf(grade).Some? && scales[0].GradeOf(minimum).Some? {
        assert IsPairOn(scales, 0, grade, minimum, scales[0].GradeOf(grade).value, scales[0].GradeOf(minimum).value);
      } else {
        assert !(HasGrade(scales[0], grade) && HasGrade(scales[0], minimum));
        assert GradePair(scales, grade, minimum) == GradePair(rest, grade, minimum);
        var r := GradePair(rest, grade, minimum);
        if r.Some? {
          var n: nat :| IsPairOn(rest, n, grade, minimum, r.value.0, r.value.1);
          assert forall i :: 0 <= i < n + 1 ==> i == 0 || scales[i] == rest[i - 1];
          assert IsPairOn(scales, n + 1, grade, minimum, r.value.0, r.value.1);
        }
      }
    }
  }

  /** The first scale with both grades, and the grades on it, are determined. */
  lemma PairUnique(scales: seq<GradeScale>, n: nat, n': nat, grade: GradeId, minimum: GradeId, g: Grade, m: Grade, g': Grade, m': Grade)
    requires IsPairOn(scales, n, grade, minimum, g, m) && IsPairOn(scales, n', grade, minimum, g', m')
    ensures n == n' && g == g' && m == m'
  {
    hide FirstGrade;
    assert HasGrade(scales[n], grade) && HasGrade(scales[n], minimum);
    assert HasGrade(scales[n'], grade) && HasGrade(scales[n'], minimum);
    HasGradeIff(scales[n], grade);
    HasGradeIff(scales[n], minimum);
  }

  lemma MeetsMinimumExactly(c: Content, grade: GradeId, minimum: GradeId)
    ensures MeetsMinimum(c, grade, minimum) <==> GoodEnough(c.scales, grade, minimum)
  {
    GradePairIsFirst(c.scales, grade, minimum);
    hide FirstGrade, GradePair;
    match GradePair(c.scales, grade, minimum)
    case None =>
      assert forall n, g :: 0 <= n < |c.scales| && FirstGrade(c.scales[n], grade, g) ==> HasGrade(c.scales[n], grade);
      assert forall n, m :: 0 <= n < |c.scales| && FirstGrade(c.scales[n], minimum, m) ==> HasGrade(c.scales[n], minimum);
    case Some(pair) =>
      var g, m := pair.0, pair.1;
      var n: nat :| IsPairOn(c.scales, n, grade, minimum, g, m);
      if GoodEnough(c.scales, grade, minimum) {
        var n', g', m' :|
          && 0 <= n' < |c.scales| && FirstGrade(c.scales[n'], grade, g') && FirstGrade(c.scales[n'], minimum, m') && g'.ordinal <= m'.ordinal
          && forall i :: 0 <= i < n' ==> !(HasGrade(c.scales[i], grade) && HasGrade(c.scales[i], minimum));
        assert IsPairOn(c.scales, n', grade, minimum, g', m');
        PairUnique(c.scales, n, n', grade, minimum, g, m, g', m');
      }
  }

  // ---------------------------------------------------------------------------------------------
  // Eligible awards
  // ---------------------------------------------------------------------------------------------

  /** One of the award's feeders is the award or the class that the stream comes from. */
  ghost predicate Feeds(fedBy: seq<Feeder>, s: CandidateStream) {
    match s
    case AwardStream(id, _, _) => AwardFeeder(id) in fedBy
    case ClassStream(id, _, _) => ClassFeeder(id) in fedBy
  }

  lemma MatchedExactly(fedBy: seq<Feeder>, s: CandidateStream)
    ensures Matched(fedBy, s) <==> Feeds(fedBy, s)
  {
    if Feeds(fedBy, s) {
      var f := if s.AwardStream? then AwardFeeder(s.feederAwardTypeId) else ClassFeeder(s.feederClassId);
      var i :| 0 <= i < |fedBy| && fedBy[i] == f;
      assert FeederMatchesStream(fedBy[i], s);
    }
  }

  /** The stream feeds the award and carries a dog that is good enough for it. */
  ghost predicate Supplies(c: Content, a: AwardType, s: CandidateStream)
    requires a.HigherScope?
  {
    Feeds(a.fedBy, s) && exists x :: x in s.candidates && GoodEnough(c.scales, x.gradeId, a.minimumGradeId)
  }

  lemma QualifiesExactly(c: Content, a: AwardType, s: CandidateStream)
    requires a.HigherScope?
    ensures Qualifies(c, a, s) <==> Supplies(c, a, s)
  {
    hide MeetsMinimum, GoodEnough, Matched, Feeds;
    MatchedExactly(a.fedBy, s);
    forall x ensures MeetsMinimum(c, x, a.minimumGradeId) <==> GoodEnough(c.scales, x, a.minimumGradeId) {
      MeetsMinimumExactly(c, x, a.minimumGradeId);
    }
    if x :| x in s.candidates && GoodEnough(c.scales, x.gradeId, a.minimumGradeId) {
      var i :| 0 <= i < |s.candidates| && s.candidates[i] == x;
      assert MeetsMinimum(c, s.candidates[i].gradeId, a.minimumGradeId);
    }
  }

  /** An award is eligible when some stream supplies it, at breed scope one stream tagged male and one tagged female. */
  ghost predicate Supplied(c: Content, a: AwardType, level: Level, streams: seq<CandidateStream>)
    requires a.HigherScope?
  {
    if level == Breed then
      exists s, t :: s in streams && t in streams && Supplies(c, a, s) && Supplies(c, a, t) && s.sex == Some(Male) && t.sex == Some(Female)
    else exists s :: s in streams && Supplies(c, a, s)
  }

  lemma EligibleExactly(c: Content, a: AwardType, level: Level, streams: seq<CandidateStream>)
    requires a.HigherScope?
    ensures AwardIsEligible(c, a, level, streams) <==> Supplied(c, a, level, streams)
  {
    hide Qualifies, Supplies;
    forall s ensures Qualifies(c, a, s) <==> Supplies(c, a, s) { QualifiesExactly(c, a, s); }
    if s :| s in streams && Supplies(c, a, s) {
      var i :| 0 <= i < |streams| && streams[i] == s;
      assert Qualifies(c, a, streams[i]);
    }
    if level == Breed && Supplied(c, a, level, streams) {
      var s, t :| s in streams && t in streams && Supplies(c, a, s) && Supplies(c, a, t) && s.sex == Some(Male) && t.sex == Some(Female);
      var i :| 0 <= i < |streams| && streams[i] == s;
      var j :| 0 <= j < |streams| && streams[j] == t;
      assert Qualifies(c, a, streams[i]) && Qualifies(c, a, streams[j]);
    }
  }

  // ---------------------------------------------------------------------------------------------
  // Legal assignments
  // ---------------------------------------------------------------------------------------------

  /** Candidate `j` of stream `i` is the dog's first candidacy among the streams that feed the award. */
  ghost predicate FirstCandidacy(fedBy: seq<Feeder>, streams: seq<CandidateStream>, ref: EntryRef, i: int, j: int) {
    && 0 <= i < |streams| && Feeds(fedBy, streams[i]) && 0 <= j < |streams[i].candidates| && streams[i].candidates[j].entryRef == ref
    && (forall n :: 0 <= n < j ==> streams[i].candidates[n].entryRef != ref)
    && (forall h :: 0 <= h < i && Feeds(fedBy, streams[h]) ==> forall x :: x in streams[h].candidates ==> x.entryRef != ref)
  }

  lemma {:induction false} FindFirstCandidate(candidates: seq<StreamCandidate>, ref: EntryRef)
    ensures match FindCandidate(candidates, ref)
            case None => forall x :: x in candidates ==> x.entryRef != ref
            case Some(y) => exists j :: && 0 <= j < |candidates| && candidates[j] == y && y.entryRef == ref
                                        && forall n :: 0 <= n < j ==> candidates[n].entryRef != ref
    decreases |candidates|
  {
    if candidates != [] {
      var rest := candidates[1..];
      FindFirstCandidate(rest, ref);
      assert forall n :: 0 < n < |candidates| ==> candidates[n] == rest[n - 1];
      if candidates[0].entryRef != ref && FindCandidate(rest, ref).Some? {
        var y := FindCandidate(rest, ref).value;
        var j :| 0 <= j < |rest| && rest[j] == y && y.entryRef == ref && forall n :: 0 <= n < j ==> rest[n].entryRef != ref;
        assert candidates[j + 1] == y && forall n :: 0 <= n < j + 1 ==> candidates[n].entryRef != ref;
      }
    }
  }

  lemma {:induction false} FindInConcat(first: seq<StreamCandidate>, rest: seq<StreamCandidate>, ref: EntryRef)
    ensures FindCandidate(first + rest, ref) ==
            if FindCandidate(first, ref).Some? then FindCandidate(first, ref) else FindCandidate(rest, ref)
    decreases |first|
  {
    if first == [] {
      assert first + rest == rest;
    } else {
      FindInConcat(first[1..], rest, ref);
      assert (first + rest)[1..] == first[1..] + rest && (first + rest)[0] == first[0];
    }
  }

  lemma {:induction false} CandidacyExactly(fedBy: seq<Feeder>, streams: seq<CandidateStream>, ref: EntryRef)
    ensures match FindCandidate(FeederCandidates(fedBy, streams), ref)
            case None => forall i, j :: !FirstCandidacy(fedBy, streams, ref, i, j)
            case Some(y) => exists i, j :: FirstCandidacy(fedBy, streams, ref, i, j) && streams[i].candidates[j] == y
    decreases |streams|
  {
    if streams == [] {
      assert FindCandidate([], ref) == None;
    } else {
      var rest := streams[1..];
      MatchedExactly(fedBy, streams[0]);
      FindInConcat(if Matched(fedBy, streams[0]) then streams[0].candidates else [], FeederCandidates(fedBy, rest), ref);
      FindFirstCandidate(streams[0].candidates, ref);
      CandidacyExactly(fedBy, rest, ref);
      hide Matched, Feeds;
      assert FindCandidate([], ref) == None;
      if Matched(fedBy, streams[0]) && FindCandidate(streams[0].candidates, ref).Some? {
        hide FindCandidate, FeederCandidates;
        var y := FindCandidate(streams[0].candidates, ref).value;
        var j :| && 0 <= j < |streams[0].candidates| && streams[0].candidates[j] == y && y.entryRef == ref
                 && forall n :: 0 <= n < j ==> streams[0].candidates[n].entryRef != ref;
        assert FirstCandidacy(fedBy, streams, ref, 0, j);
      } else {
        LaterCandidacy(fedBy, streams, ref);
        hide FirstCandidacy, FindCandidate, FeederCandidates;
      }
    }
  }

  /** When the first stream has no candidacy, the dog's first one is in the others. */
  lemma LaterCandidacy(fedBy: seq<Feeder>, streams: seq<CandidateStream>, ref: EntryRef)
    requires streams != [] && (Feeds(fedBy, streams[0]) ==> forall x :: x in streams[0].candidates ==> x.entryRef != ref)
    ensures forall i, j :: FirstCandidacy(fedBy, streams[1..], ref, i, j) ==> FirstCandidacy(fedBy, streams, ref, i + 1, j)
    ensures forall i, j :: FirstCandidacy(fedBy, streams, ref, i, j) ==> i > 0 && FirstCandidacy(fedBy, streams[1..], ref, i - 1, j)
  {
    hide Feeds;
    var rest := streams[1..];
    assert forall h :: 0 < h < |streams| ==> streams[h] == rest[h - 1];
    forall i, j | FirstCandidacy(fedBy, rest, ref, i, j) ensures FirstCandidacy(fedBy, streams, ref, i + 1, j) {
    }
    assert forall n :: 0 <= n < |streams[0].candidates| ==> streams[0].candidates[n] in streams[0].candidates;
    forall i, j | FirstCandidacy(fedBy, streams, ref, i, j) ensures i > 0 && FirstCandidacy(fedBy, rest, ref, i - 1, j) {
      assert forall h :: 0 <= h < |rest| ==> rest[h] == streams[h + 1];
    }
  }

  /** The award is listed at this level, and the dog's first candidacy for it is good enough. */
  ghost predicate Legal(c: Content, level: Level, streams: seq<CandidateStream>, x: Assignment) {
    exists a, i, j ::
      && a in c.awards && a.id == x.awardTypeId && a.HigherScope? && a.level == level
      && FirstCandidacy(a.fedBy, streams, x.entryRef, i, j)
      && GoodEnough(c.scales, streams[i].candidates[j].gradeId, a.minimumGradeId)
  }

  lemma CandidacyUnique(fedBy: seq<Feeder>, streams: seq<CandidateStream>, ref: EntryRef, i: int, j: int, i': int, j': int)
    requires FirstCandidacy(fedBy, streams, ref, i, j) && FirstCandidacy(fedBy, streams, ref, i', j')
    ensures i == i' && j == j'
  {
    hide Feeds;
    assert streams[i].candidates[j] in streams[i].candidates && streams[i'].candidates[j'] in streams[i'].candidates;
  }

  lemma AcceptableExactly(c: Content, a: AwardType, streams: seq<CandidateStream>, ref: EntryRef)
    requires a.HigherScope?
    ensures DogAcceptable(c, a, streams, ref) <==>
            exists i, j :: FirstCandidacy(a.fedBy, streams, ref, i, j) && GoodEnough(c.scales, streams[i].candidates[j].gradeId, a.minimumGradeId)
  {
    CandidacyExactly(a.fedBy, streams, ref);
    hide FindCandidate, FeederCandidates, GoodEnough, MeetsMinimum;
    match FindCandidate(FeederCandidates(a.fedBy, streams), ref)
    case None =>
    case Some(y) =>
      MeetsMinimumExactly(c, y.gradeId, a.minimumGradeId);
      var i, j :| FirstCandidacy(a.fedBy, streams, ref, i, j) && streams[i].candidates[j] == y;
      forall i', j' | FirstCandidacy(a.fedBy, streams, ref, i', j') ensures i' == i && j' == j {
        CandidacyUnique(a.fedBy, streams, ref, i, j, i', j');
      }
  }

  lemma LegalExactly(c: Content, level: Level, streams: seq<CandidateStream>, x: Assignment)
    requires UniqueContent(c)
    ensures OneHigherScope(c, level, streams, x) <==> Legal(c, level, streams, x)
  {
    hide Feeds, GoodEnough, DogAcceptable, Find, UniqueIds;
    forall a ensures AwardOf(c, x.awardTypeId) == Some(a) <==> a in c.awards && a.id == x.awardTypeId {
      FoundIffListed(c.awards, AwardIdOf, x.awardTypeId, a);
    }
    hide AwardOf, UniqueContent;
    forall a: AwardType | a.HigherScope?
      ensures DogAcceptable(c, a, streams, x.entryRef) <==>
              exists i, j :: && FirstCandidacy(a.fedBy, streams, x.entryRef, i, j)
                             && GoodEnough(c.scales, streams[i].candidates[j].gradeId, a.minimumGradeId)
    {
      AcceptableExactly(c, a, streams, x.entryRef);
    }
  }

  /** The dog's sex tag is that of the first stream that carries it. */
  lemma {:induction false} SexIsOfFirst(streams: seq<CandidateStream>, ref: EntryRef, i: nat)
    requires i < |streams| && (exists x :: x in streams[i].candidates && x.entryRef == ref)
    requires forall h, x :: 0 <= h < i && x in streams[h].candidates ==> x.entryRef != ref
    ensures SexOfCandidate(streams, ref) == streams[i].sex
    decreases |streams|
  {
    if i == 0 {
      var x :| x in streams[0].candidates && x.entryRef == ref;
      var j :| 0 <= j < |streams[0].candidates| && streams[0].candidates[j] == x;
      assert Carries(streams[0], ref);
    } else {
      assert !Carries(streams[0], ref) by {
        assert forall j :: 0 <= j < |streams[0].candidates| ==> streams[0].candidates[j] in streams[0].candidates;
      }
      var rest := streams[1..];
      assert rest[i - 1] == streams[i] && forall h :: 0 <= h < i - 1 ==> rest[h] == streams[h + 1];
      SexIsOfFirst(rest, ref, i - 1);
    }
  }

  lemma {:induction false} NoSexOfAbsent(streams: seq<CandidateStream>, ref: EntryRef)
    requires forall h, x :: 0 <= h < |streams| && x in streams[h].candidates ==> x.entryRef != ref
    ensures SexOfCandidate(streams, ref) == None
    decreases |streams|
  {
    if streams != [] {
      assert forall j :: 0 <= j < |streams[0].candidates| ==> streams[0].candidates[j] in streams[0].candidates;
      assert forall h :: 0 <= h < |streams[1..]| ==> streams[1..][h] == streams[h + 1];
      NoSexOfAbsent(streams[1..], ref);
    }
  }
}
