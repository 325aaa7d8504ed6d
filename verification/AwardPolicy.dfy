/**
 The FCI award policy: which awards may be proposed, and whether a judge's proposal is legal
 (fci-award-policy.ts, meets-award-requirements.ts, grade-comparison.ts).
 */
module AwardPolicy {
  import opened Wrappers
  import opened RulesetModel
  import opened EffectiveRulesets
  import opened MergeById
  import opened LayerPrecedence

  datatype EntryRef = EntryRef(text: string)
  datatype Sex = Male | Female
  datatype ClassPlacement = ClassPlacement(classId: ClassId, entryRef: EntryRef, gradeId: GradeId, placement: Option<nat>)
  datatype StreamCandidate = StreamCandidate(entryRef: EntryRef, gradeId: GradeId)
  datatype CandidateStream =
    | AwardStream(feederAwardTypeId: AwardTypeId, sex: Option<Sex>, candidates: seq<StreamCandidate>)
    | ClassStream(feederClassId: ClassId, sex: Option<Sex>, candidates: seq<StreamCandidate>)
  datatype Assignment = Assignment(entryRef: EntryRef, awardTypeId: AwardTypeId)

  /** The answer to a check that may instead throw its "Invariant violated" guard. */
  datatype Check = Passes | Fails | InvariantViolated

  // ---------------------------------------------------------------------------------------------
  // What a per-sex award takes
  // ---------------------------------------------------------------------------------------------

  /** `g` is the first grade of the scale with this id. */
  ghost predicate FirstGrade(s: GradeScale, id: GradeId, g: Grade) {
    exists i :: 0 <= i < |s.grades| && s.grades[i] == g && g.id == id && forall j :: 0 <= j < i ==> s.grades[j].id != id
  }

  /**
   The placed dog's class names the award; on the class's own scale its grade is no worse than the award's minimum, a
   lower ordinal being better; and it is placed, no worse than the award asks, when the award asks.
   */
  ghost predicate Deserves(c: Content, p: ClassPlacement, id: AwardTypeId) {
    exists k, a, s, g, m ::
      && k in c.classes && a in c.awards && s in c.scales
      && k.id == p.classId && id in k.awardTypeIds && a.id == id && !a.Collective? && s.id == k.gradeScaleId
      && FirstGrade(s, p.gradeId, g) && FirstGrade(s, a.minimumGradeId, m) && g.ordinal <= m.ordinal
      && (a.worstEligiblePlacement.Some? ==> p.placement.Some? && p.placement.value <= a.worstEligiblePlacement.value)
  }

  /** The chosen dog deserves the award by its first listed placement. */
  ghost predicate DeservesChoice(c: Content, placements: seq<ClassPlacement>, x: Assignment) {
    exists i: nat :: IsFirst(placements, i) && placements[i].entryRef == x.entryRef && Deserves(c, placements[i], x.awardTypeId)
  }

  // ---------------------------------------------------------------------------------------------
  // Per-sex scope
  // ---------------------------------------------------------------------------------------------

  /** Grade in the class's scale, at least the minimum, and placed well enough. */
  function MeetsAwardRequirements(c: Content, p: ClassPlacement, a: AwardType, k: ClassDefinition): Check
    requires !a.Collective?
  {
    match GradeOn(c, p.gradeId, k.gradeScaleId)
    case None => Fails
    case Some(dogGrade) =>
      match GradeOn(c, a.minimumGradeId, k.gradeScaleId)
      case None => InvariantViolated
      case Some(minimum) =>
        if !dogGrade.IsAtLeast(minimum) then Fails
        else if a.worstEligiblePlacement.Some? &&
                (p.placement.None? || p.placement.value > a.worstEligiblePlacement.value) then Fails
        else Passes
  }

  /** The check of one placement for one of its class's award types, when there is anything to check. */
  function PlacementCheck(c: Content, p: ClassPlacement, id: AwardTypeId): Check {
    var k := ClassOf(c, p.classId);
    var a := AwardOf(c, id);
    if k.None? || id !in k.value.awardTypeIds || a.None? || a.value.Collective? then Fails
    else MeetsAwardRequirements(c, p, a.value, k.value)
  }

  function AddOnce<T(==)>(s: seq<T>, x: T): seq<T> { if x in s then s else s + [x] }

  ghost predicate Distinct<T>(s: seq<T>) { forall i, j :: 0 <= i < j < |s| ==> s[i] != s[j] }

  /** Award `n` of the class of placement `i` is `id`, and the placement passes for it. */
  ghost predicate PassesAt(c: Content, placements: seq<ClassPlacement>, i: int, n: int, id: AwardTypeId) {
    && 0 <= i < |placements| && ClassOf(c, placements[i].classId).Some?
    && 0 <= n < |ClassOf(c, placements[i].classId).value.awardTypeIds|
    && ClassOf(c, placements[i].classId).value.awardTypeIds[n] == id && PlacementCheck(c, placements[i], id) == Passes
  }

  ghost predicate FirstPassesAt(c: Content, placements: seq<ClassPlacement>, i: int, n: int, id: AwardTypeId) {
    PassesAt(c, placements, i, n, id) && forall h, m :: Earlier(h, m, i, n) ==> !PassesAt(c, placements, h, m, id)
  }

  /** Awards are in the order in which they first pass, placement by placement and award by award. */
  ghost predicate InPassingOrder(c: Content, placements: seq<ClassPlacement>, ids: seq<AwardTypeId>) {
    forall p, q, i, n, i2, n2 ::
      0 <= p < q < |ids| && FirstPassesAt(c, placements, i, n, ids[p]) && FirstPassesAt(c, placements, i2, n2, ids[q]) ==>
      Earlier(i, n, i2, n2)
  }

  /** The awards found before position `n` of placement `i`. */
  ghost predicate FoundSoFar(c: Content, placements: seq<ClassPlacement>, i: int, n: int, ids: seq<AwardTypeId>) {
    && (forall id :: id in ids ==> exists h, m :: Earlier(h, m, i, n) && PassesAt(c, placements, h, m, id))
    && (forall h, m, id :: Earlier(h, m, i, n) && PassesAt(c, placements, h, m, id) ==> id in ids)
    && InPassingOrder(c, placements, ids)
  }

  lemma FoundOneMore(c: Content, placements: seq<ClassPlacement>, i: int, n: int, ids: seq<AwardTypeId>, id: AwardTypeId)
    requires FoundSoFar(c, placements, i, n, ids) && PassesAt(c, placements, i, n, id)
    requires forall other :: PassesAt(c, placements, i, n, other) ==> other == id
    ensures FoundSoFar(c, placements, i, n + 1, AddOnce(ids, id))
  {
    hide PassesAt;
    assert Earlier(i, n, i, n + 1);
    assert forall h, m :: Earlier(h, m, i, n + 1) <==> Earlier(h, m, i, n) || (h == i && m == n);
    if id !in ids {
      var more := ids + [id];
      forall p, q, h, m, h2, m2 |
          0 <= p < q < |more| && FirstPassesAt(c, placements, h, m, more[p]) && FirstPassesAt(c, placements, h2, m2, more[q])
        ensures Earlier(h, m, h2, m2)
      {
        assert more[p] == ids[p] && ids[p] in ids;
        if q == |ids| {
          assert more[q] == id && !Earlier(i, n, h2, m2);
          var h', m' :| Earlier(h', m', i, n) && PassesAt(c, placements, h', m', ids[p]);
        } else {
          assert more[q] == ids[q];
        }
      }
    }
  }

  /** A position that passes for nothing, or past the end of a class's awards, adds nothing. */
  lemma FoundNoMore(c: Content, placements: seq<ClassPlacement>, i: int, n: int, i2: int, n2: int, ids: seq<AwardTypeId>)
    requires FoundSoFar(c, placements, i, n, ids) && (Earlier(i, n, i2, n2) || (i == i2 && n == n2))
    requires forall h, m, id :: Earlier(h, m, i2, n2) && !Earlier(h, m, i, n) ==> !PassesAt(c, placements, h, m, id)
    ensures FoundSoFar(c, placements, i2, n2, ids)
  {
    hide PassesAt;
    assert forall h, m :: Earlier(h, m, i, n) ==> Earlier(h, m, i2, n2);
  }

  lemma SkipClass(c: Content, placements: seq<ClassPlacement>, i: nat, n: nat, ids: seq<AwardTypeId>)
    requires FoundSoFar(c, placements, i, n, ids) && i < |placements|
    requires var k := ClassOf(c, placements[i].classId); k.Some? ==> |k.value.awardTypeIds| <= n
    ensures FoundSoFar(c, placements, i + 1, 0, ids)
  {
    hide FoundSoFar, ClassOf, PlacementCheck;
    FoundNoMore(c, placements, i, n, i + 1, 0, ids);
  }

  lemma SkipAward(c: Content, placements: seq<ClassPlacement>, i: nat, n: nat, ids: seq<AwardTypeId>)
    requires FoundSoFar(c, placements, i, n, ids) && i < |placements|
    requires var k := ClassOf(c, placements[i].classId);
             k.Some? && n < |k.value.awardTypeIds| && PlacementCheck(c, placements[i], k.value.awardTypeIds[n]) != Passes
    ensures FoundSoFar(c, placements, i, n + 1, ids)
  {
    hide FoundSoFar, ClassOf, PlacementCheck;
    FoundNoMore(c, placements, i, n, i, n + 1, ids);
  }

  lemma TakeAward(c: Content, placements: seq<ClassPlacement>, i: nat, n: nat, ids: seq<AwardTypeId>)
    requires FoundSoFar(c, placements, i, n, ids) && i < |placements|
    requires var k := ClassOf(c, placements[i].classId);
             k.Some? && n < |k.value.awardTypeIds| && PlacementCheck(c, placements[i], k.value.awardTypeIds[n]) == Passes
    ensures FoundSoFar(c, placements, i, n + 1, AddOnce(ids, ClassOf(c, placements[i].classId).value.awardTypeIds[n]))
  {
    hide FoundSoFar, ClassOf, PlacementCheck;
    FoundOneMore(c, placements, i, n, ids, ClassOf(c, placements[i].classId).value.awardTypeIds[n]);
  }

  method PerSexEligible(c: Content, placements: seq<ClassPlacement>) returns (r: Result<seq<AwardTypeId>, ()>)
    ensures r.Failure? <==> exists p, id :: p in placements && PlacementCheck(c, p, id) == InvariantViolated
    ensures r.Success? ==> Distinct(r.value)
    ensures r.Success? ==>
              forall id :: id in r.value <==> exists p :: p in placements && PlacementCheck(c, p, id) == Passes
    ensures r.Success? ==> InPassingOrder(c, placements, r.value)
    ensures Resolved(c) ==> r.Success? && forall id :: id in r.value <==> exists p :: p in placements && Deserves(c, p, id)
  {
    PassesIffDeserved(c, placements);
    hide Find, MeetsAwardRequirements, Deserves, Resolved, FoundSoFar, InPassingOrder, AddOnce, PassesAt, FirstPassesAt;
    FoundNothing(c, placements);
    var eligible: seq<AwardTypeId> := [];
    for i := 0 to |placements|
      invariant Distinct(eligible) && FoundSoFar(c, placements, i, 0, eligible)
      invariant forall id :: id in eligible <==> exists j :: 0 <= j < i && PlacementCheck(c, placements[j], id) == Passes
      invariant forall j, id :: 0 <= j < i ==> PlacementCheck(c, placements[j], id) != InvariantViolated
    {
      var p := placements[i];
      var k := ClassOf(c, p.classId);
      if k.None? {
        SkipClass(c, placements, i, 0, eligible);
        continue;
      }
      var ids := k.value.awardTypeIds;
      for n := 0 to |ids|
        invariant Distinct(eligible) && FoundSoFar(c, placements, i, n, eligible)
        invariant forall id :: id in eligible <==>
          || (exists j :: 0 <= j < i && PlacementCheck(c, placements[j], id) == Passes)
          || (id in ids[..n] && PlacementCheck(c, p, id) == Passes)
        invariant forall m :: 0 <= m < n ==> PlacementCheck(c, p, ids[m]) != InvariantViolated
      {
        var a := AwardOf(c, ids[n]);
        if a.None? || a.value.Collective? {
          SkipAward(c, placements, i, n, eligible);
          continue;
        }
        var check := MeetsAwardRequirements(c, p, a.value, k.value);
        assert PlacementCheck(c, p, ids[n]) == check;
        if check == InvariantViolated { return Failure(()); }
        if check == Passes {
          TakeAward(c, placements, i, n, eligible);
          AddOnceIs(eligible, ids[n]);
          eligible := AddOnce(eligible, ids[n]);
        } else {
          SkipAward(c, placements, i, n, eligible);
        }
      }
      SkipClass(c, placements, i, |ids|, eligible);
      assert ids[..|ids|] == ids;
      assert forall id :: PlacementCheck(c, p, id) != Fails ==> id in ids;
    }
    FoundInOrder(c, placements, eligible);
    return Success(eligible);
  }

  lemma FoundNothing(c: Content, placements: seq<ClassPlacement>)
    ensures FoundSoFar(c, placements, 0, 0, [])
  {
  }

  lemma FoundInOrder(c: Content, placements: seq<ClassPlacement>, ids: seq<AwardTypeId>)
    requires FoundSoFar(c, placements, |placements|, 0, ids)
    ensures InPassingOrder(c, placements, ids)
  {
  }

  lemma AddOnceIs<T>(s: seq<T>, x: T)
    requires Distinct(s)
    ensures Distinct(AddOnce(s, x)) && forall y :: y in AddOnce(s, x) <==> y in s || y == x
  {
  }

  function FindPlacement(placements: seq<ClassPlacement>, ref: EntryRef): Option<ClassPlacement>
    decreases |placements|
  {
    if placements == [] then None
    else if placements[0].entryRef == ref then Some(placements[0])
    else FindPlacement(placements[1..], ref)
  }

  /** One proposed assignment: known individual award, placed dog, known class naming the award, requirements met. */
  function OnePerSex(c: Content, placements: seq<ClassPlacement>, x: Assignment): Check {
    match AwardOf(c, x.awardTypeId)
    case None => Fails
    case Some(a) =>
      if a.Collective? then Fails
      else
        match FindPlacement(placements, x.entryRef)
        case None => Fails
        case Some(p) =>
          match ClassOf(c, p.classId)
          case None => Fails
          case Some(k) =>
            if x.awardTypeId !in k.awardTypeIds then Fails else MeetsAwardRequirements(c, p, a, k)
  }

  method ValidatePerSex(c: Content, placements: seq<ClassPlacement>, proposed: seq<Assignment>) returns (r: Check)
    ensures r == Passes <==> forall i :: 0 <= i < |proposed| ==> OnePerSex(c, placements, proposed[i]) == Passes
    ensures r != Passes ==> exists i :: && 0 <= i < |proposed| && r == OnePerSex(c, placements, proposed[i])
                                        && forall j :: 0 <= j < i ==> OnePerSex(c, placements, proposed[j]) == Passes
    ensures Resolved(c) ==> r != InvariantViolated
    ensures Resolved(c) ==> (r == Passes <==> forall i :: 0 <= i < |proposed| ==> DeservesChoice(c, placements, proposed[i]))
  {
    AcceptedIffDeserved(c, placements);
    hide OnePerSex, DeservesChoice, Resolved;
    for i := 0 to |proposed|
      invariant forall j :: 0 <= j < i ==> OnePerSex(c, placements, proposed[j]) == Passes
    {
      r := OnePerSex(c, placements, proposed[i]);
      if r != Passes { return; }
    }
    return Passes;
  }

  lemma GradeOfIsFirst(s: GradeScale, id: GradeId, g: Grade)
    ensures s.GradeOf(id) == Some(g) <==> FirstGrade(s, id, g)
  {
    var idOf := (x: Grade) => x.id;
    FindSpec(s.grades, idOf, id);
    if FirstGrade(s, id, g) {
      var i :| 0 <= i < |s.grades| && s.grades[i] == g && g.id == id && forall j :: 0 <= j < i ==> s.grades[j].id != id;
      assert idOf(s.grades[i]) == id;
      assert FirstAt(s.grades, idOf, id) == i;
    }
  }

  /** The check of one placement passes exactly when the dog deserves the award. */
  lemma PassesExactly(c: Content, p: ClassPlacement, id: AwardTypeId)
    requires UniqueContent(c)
    ensures PlacementCheck(c, p, id) == Passes <==> Deserves(c, p, id)
  {
    hide Find, FirstGrade, UniqueIds, GradeScale.GradeOf;
    forall k ensures ClassOf(c, p.classId) == Some(k) <==> k in c.classes && k.id == p.classId {
      FoundIffListed(c.classes, ClassIdOf, p.classId, k);
    }
    forall a ensures AwardOf(c, id) == Some(a) <==> a in c.awards && a.id == id {
      FoundIffListed(c.awards, AwardIdOf, id, a);
    }
    forall scaleId, s ensures ScaleOf(c, scaleId) == Some(s) <==> s in c.scales && s.id == scaleId {
      FoundIffListed(c.scales, ScaleIdOf, scaleId, s);
    }
    forall s: GradeScale, grade, g ensures s.GradeOf(grade) == Some(g) <==> FirstGrade(s, grade, g) { GradeOfIsFirst(s, grade, g); }
    hide ClassOf, AwardOf, ScaleOf, UniqueContent;
    PassesWhenFound(c, p, id);
  }

  /** The lookups are taken for what they find. */
  lemma PassesWhenFound(c: Content, p: ClassPlacement, id: AwardTypeId)
    requires forall k :: ClassOf(c, p.classId) == Some(k) <==> k in c.classes && k.id == p.classId
    requires forall a :: AwardOf(c, id) == Some(a) <==> a in c.awards && a.id == id
    requires forall scaleId, s :: ScaleOf(c, scaleId) == Some(s) <==> s in c.scales && s.id == scaleId
    requires forall s: GradeScale, grade, g :: s.GradeOf(grade) == Some(g) <==> FirstGrade(s, grade, g)
    ensures PlacementCheck(c, p, id) == Passes <==> Deserves(c, p, id)
  {
    hide ClassOf, AwardOf, ScaleOf, FirstGrade, GradeScale.GradeOf;
  }

  lemma PassesIffDeserved(c: Content, placements: seq<ClassPlacement>)
    ensures Resolved(c) ==>
              forall p, id :: p in placements ==>
                PlacementCheck(c, p, id) != InvariantViolated && (PlacementCheck(c, p, id) == Passes <==> Deserves(c, p, id))
  {
    hide PlacementCheck, Deserves, WellFormed, UniqueContent;
    if Resolved(c) {
      forall p, id ensures PlacementCheck(c, p, id) != InvariantViolated && (PlacementCheck(c, p, id) == Passes <==> Deserves(c, p, id)) {
        GuardUnreachable(c, p, id);
        PassesExactly(c, p, id);
      }
    }
  }

  /** A proposed assignment passes exactly when the dog deserves the award by its first placement. */
  lemma AcceptedExactly(c: Content, placements: seq<ClassPlacement>, x: Assignment)
    requires UniqueContent(c)
    ensures OnePerSex(c, placements, x) == Passes <==> DeservesChoice(c, placements, x)
  {
    hide MeetsAwardRequirements, Find, AwardOf, ClassOf, UniqueContent, Deserves;
    FindPlacementSpec(placements, x.entryRef);
    forall p ensures PlacementCheck(c, p, x.awardTypeId) == Passes <==> Deserves(c, p, x.awardTypeId) {
      PassesExactly(c, p, x.awardTypeId);
    }
    hide FindPlacement;
    match FindPlacement(placements, x.entryRef)
    case None =>
    case Some(p) =>
      assert OnePerSex(c, placements, x) == Passes <==> PlacementCheck(c, p, x.awardTypeId) == Passes;
      var i: nat :| IsFirst(placements, i) && placements[i] == p;
      assert forall j: nat :: IsFirst(placements, j) && placements[j].entryRef == x.entryRef ==> j == i;
  }

  lemma AcceptedIffDeserved(c: Content, placements: seq<ClassPlacement>)
    ensures Resolved(c) ==>
              forall x :: OnePerSex(c, placements, x) != InvariantViolated
                          && (OnePerSex(c, placements, x) == Passes <==> DeservesChoice(c, placements, x))
  {
    hide OnePerSex, DeservesChoice, WellFormed, UniqueContent;
    if Resolved(c) {
      forall x ensures OnePerSex(c, placements, x) != InvariantViolated
                       && (OnePerSex(c, placements, x) == Passes <==> DeservesChoice(c, placements, x)) {
        GuardUnreachableInProposals(c, placements, x);
        AcceptedExactly(c, placements, x);
      }
    }
  }

  /** On a resolved snapshot the guard is never reached. */
  lemma GuardUnreachable(c: Content, p: ClassPlacement, id: AwardTypeId)
    requires Resolved(c)
    ensures PlacementCheck(c, p, id) != InvariantViolated
  {
    hide GradeOn, MinimumGradeResolves, UniqueContent;
    var k, a := ClassOf(c, p.classId), AwardOf(c, id);
    if k.Some? && id in k.value.awardTypeIds {
      FindSpec(c.classes, ClassIdOf, p.classId);
      assert k.value in c.classes;
      assert ClassWellFormed(c, k.value);
      assert NamedAwardWellFormed(c, k.value, id);
    }
  }

  lemma GuardUnreachableInProposals(c: Content, placements: seq<ClassPlacement>, x: Assignment)
    requires Resolved(c)
    ensures OnePerSex(c, placements, x) != InvariantViolated
  {
    hide MeetsAwardRequirements, Find, Resolved, AwardOf, ClassOf;
    if FindPlacement(placements, x.entryRef).Some? {
      GuardUnreachable(c, FindPlacement(placements, x.entryRef).value, x.awardTypeId);
    }
  }

  /** Position `i` is its dog's first placement. */
  ghost predicate IsFirst(placements: seq<ClassPlacement>, i: nat) {
    i < |placements| && forall j :: 0 <= j < i ==> placements[j].entryRef != placements[i].entryRef
  }

  lemma {:induction false} FindPlacementSpec(placements: seq<ClassPlacement>, ref: EntryRef)
    ensures match FindPlacement(placements, ref)
            case None => forall i :: 0 <= i < |placements| ==> placements[i].entryRef != ref
            case Some(p) => exists i: nat :: IsFirst(placements, i) && placements[i] == p && p.entryRef == ref
    decreases |placements|
  {
    if placements != [] {
      if placements[0].entryRef == ref {
        assert IsFirst(placements, 0);
      } else {
        var tail := placements[1..];
        FindPlacementSpec(tail, ref);
        match FindPlacement(tail, ref)
        case None =>
          assert forall i :: 0 < i < |placements| ==> placements[i] == tail[i - 1];
        case Some(p) =>
          var i: nat :| IsFirst(tail, i) && tail[i] == p && p.entryRef == ref;
          assert forall j :: 0 < j <= i ==> placements[j] == tail[j - 1];
          assert IsFirst(placements, i + 1) && placements[i + 1] == p;
      }
    }
  }

  /** A single-assignment proposal of `id` is accepted exactly when it qualifies at some dog's first placement. */
  lemma AcceptedAtFirstPlacement(c: Content, placements: seq<ClassPlacement>, id: AwardTypeId)
    ensures (exists ref :: OnePerSex(c, placements, Assignment(ref, id)) == Passes) <==>
            exists i: nat :: IsFirst(placements, i) && PlacementCheck(c, placements[i], id) == Passes
  {
    hide MeetsAwardRequirements, Find, AwardOf, ClassOf;
    if ref :| OnePerSex(c, placements, Assignment(ref, id)) == Passes {
      FindPlacementSpec(placements, ref);
      hide FindPlacement;
      var p := FindPlacement(placements, ref).value;
      var i: nat :| IsFirst(placements, i) && placements[i] == p;
      assert PlacementCheck(c, placements[i], id) == Passes;
    }
    if i: nat :| IsFirst(placements, i) && PlacementCheck(c, placements[i], id) == Passes {
      var ref := placements[i].entryRef;
      FindPlacementSpec(placements, ref);
      hide FindPlacement;
      var j: nat :| IsFirst(placements, j) && placements[j].entryRef == ref && Some(placements[j]) == FindPlacement(placements, ref);
      assert i == j;
      assert OnePerSex(c, placements, Assignment(ref, id)) == Passes;
    }
  }

  ghost predicate OnePlacementPerDog(placements: seq<ClassPlacement>) {
    forall i, j :: 0 <= i < j < |placements| ==> placements[i].entryRef != placements[j].entryRef
  }

  /**
   The two per-sex views agree: when each dog has one placement, an award qualifies somewhere exactly when
   some single-assignment proposal of it is accepted.
   */
  lemma PerSexViewsAgree(c: Content, placements: seq<ClassPlacement>, id: AwardTypeId)
    requires OnePlacementPerDog(placements)
    ensures (exists p :: p in placements && PlacementCheck(c, p, id) == Passes) <==>
            exists ref :: OnePerSex(c, placements, Assignment(ref, id)) == Passes
  {
    hide PlacementCheck, OnePerSex;
    AcceptedAtFirstPlacement(c, placements, id);
    if p :| p in placements && PlacementCheck(c, p, id) == Passes {
      var i :| 0 <= i < |placements| && placements[i] == p;
      assert IsFirst(placements, i);
    }
  }

  // ---------------------------------------------------------------------------------------------
  // Breed, group and show scope: matching feeders to streams
  // ---------------------------------------------------------------------------------------------

  predicate FeederMatchesStream(f: Feeder, s: CandidateStream) {
    match (f, s)
    case (AwardFeeder(id), AwardStream(sid, _, _)) => sid == id
    case (ClassFeeder(id), ClassStream(sid, _, _)) => sid == id
    case _ => false
  }

  predicate Matched(fedBy: seq<Feeder>, s: CandidateStream) {
    exists i :: 0 <= i < |fedBy| && FeederMatchesStream(fedBy[i], s)
  }

  /** All candidates of the streams matching `fedBy`, in order. */
  function FeederCandidates(fedBy: seq<Feeder>, streams: seq<CandidateStream>): seq<StreamCandidate>
    decreases |streams|
  {
    if streams == [] then []
    else (if Matched(fedBy, streams[0]) then streams[0].candidates else []) + FeederCandidates(fedBy, streams[1..])
  }

  function FindCandidate(candidates: seq<StreamCandidate>, ref: EntryRef): Option<StreamCandidate>
    decreases |candidates|
  {
    if candidates == [] then None
    else if candidates[0].entryRef == ref then Some(candidates[0])
    else FindCandidate(candidates[1..], ref)
  }

  /** Both grades on the first scale that has both. */
  function GradePair(scales: seq<GradeScale>, candidate: GradeId, minimum: GradeId): Option<(Grade, Grade)>
    decreases |scales|
  {
    if scales == [] then None
    else
      var (g, m) := (scales[0].GradeOf(candidate), scales[0].GradeOf(minimum));
      if g.Some? && m.Some? then Some((g.value, m.value)) else GradePair(scales[1..], candidate, minimum)
  }

  predicate MeetsMinimum(c: Content, candidate: GradeId, minimum: GradeId) {
    match GradePair(c.scales, candidate, minimum)
    case None => false
    case Some((g, m)) => g.IsAtLeast(m)
  }

  predicate StreamHasQualifying(c: Content, s: CandidateStream, minimum: GradeId) {
    exists i :: 0 <= i < |s.candidates| && MeetsMinimum(c, s.candidates[i].gradeId, minimum)
  }

  /** A stream of the award's feeders with a candidate good enough for it. */
  predicate Qualifies(c: Content, a: AwardType, s: CandidateStream)
    requires a.HigherScope?
  {
    Matched(a.fedBy, s) && StreamHasQualifying(c, s, a.minimumGradeId)
  }

  predicate AwardIsEligible(c: Content, a: AwardType, level: Level, streams: seq<CandidateStream>)
    requires a.HigherScope?
  {
    if level == Breed then
      && (exists i :: 0 <= i < |streams| && Qualifies(c, a, streams[i]) && streams[i].sex == Some(Male))
      && (exists i :: 0 <= i < |streams| && Qualifies(c, a, streams[i]) && streams[i].sex == Some(Female))
    else exists i :: 0 <= i < |streams| && Qualifies(c, a, streams[i])
  }

  /** The snapshot's awards at one level. */
  function AwardsAt(awards: seq<AwardType>, level: Level): (r: seq<AwardType>)
    ensures forall i :: 0 <= i < |r| ==> r[i].HigherScope? && r[i].level == level
    ensures forall a :: a in r <==> a in awards && a.HigherScope? && a.level == level
    decreases |awards|
  {
    if awards == [] then []
    else
      assert awards == [awards[0]] + awards[1..];
      (if awards[0].HigherScope? && awards[0].level == level then [awards[0]] else []) + AwardsAt(awards[1..], level)
  }

  /** An award with id `x` is listed before one with id `y`. */
  ghost predicate Precedes(awards: seq<AwardType>, x: AwardTypeId, y: AwardTypeId) {
    exists i, j :: 0 <= i < j < |awards| && awards[i].id == x && awards[j].id == y
  }

  /** Ids in the order of the awards that carry them. */
  ghost predicate InAwardOrder(awards: seq<AwardType>, ids: seq<AwardTypeId>) {
    forall p, q :: 0 <= p < q < |ids| ==> Precedes(awards, ids[p], ids[q])
  }

  lemma PrecedesInLonger(first: seq<AwardType>, rest: seq<AwardType>, x: AwardTypeId, y: AwardTypeId)
    requires Precedes(rest, x, y) || Precedes(first, x, y) || (exists a, b :: a in first && b in rest && a.id == x && b.id == y)
    ensures Precedes(first + rest, x, y)
  {
    var all := first + rest;
    if i, j :| 0 <= i < j < |rest| && rest[i].id == x && rest[j].id == y {
      assert all[|first| + i] == rest[i] && all[|first| + j] == rest[j];
    } else if i, j :| 0 <= i < j < |first| && first[i].id == x && first[j].id == y {
      assert all[i] == first[i] && all[j] == first[j];
    } else {
      var a, b :| a in first && b in rest && a.id == x && b.id == y;
      var i :| 0 <= i < |first| && first[i] == a;
      var j :| 0 <= j < |rest| && rest[j] == b;
      assert all[i] == a && all[|first| + j] == b;
    }
  }

  lemma SplitPrecedes(first: AwardType, rest: seq<AwardType>, x: AwardTypeId, y: AwardTypeId)
    requires Precedes([first] + rest, x, y)
    ensures Precedes(rest, x, y) || (first.id == x && exists b :: b in rest && b.id == y)
  {
    var all := [first] + rest;
    var i, j :| 0 <= i < j < |all| && all[i].id == x && all[j].id == y;
    assert rest[j - 1] == all[j] && rest[j - 1] in rest;
    if i > 0 { assert rest[i - 1] == all[i]; }
  }

  /** Leaving awards out keeps the order of the others. */
  lemma {:induction false} PrecedesAt(awards: seq<AwardType>, level: Level, x: AwardTypeId, y: AwardTypeId)
    requires Precedes(AwardsAt(awards, level), x, y)
    ensures Precedes(awards, x, y)
    decreases |awards|
  {
    if awards == [] { return; }
    var first, others := awards[0], awards[1..];
    var rest := AwardsAt(others, level);
    assert awards == [first] + others;
    assert AwardsAt(awards, level) == (if first.HigherScope? && first.level == level then [first] else []) + rest;
    assert forall b :: b in rest ==> b in others;
    hide AwardsAt, Precedes;
    if first.HigherScope? && first.level == level {
      SplitPrecedes(first, rest, x, y);
    } else {
      assert AwardsAt(awards, level) == rest;
    }
    if Precedes(rest, x, y) { PrecedesAt(others, level, x, y); }
    PrecedesInLonger([first], others, x, y);
  }

  lemma NothingInOrder()
    ensures InAwardOrder([], [])
  {
  }

  /** Among these awards, the eligible ones, once each and in order. */
  ghost predicate EligibleAmong(c: Content, level: Level, streams: seq<CandidateStream>, awards: seq<AwardType>, ids: seq<AwardTypeId>)
    requires forall a :: a in awards ==> a.HigherScope?
  {
    && Distinct(ids) && InAwardOrder(awards, ids)
    && forall id :: id in ids <==> exists a :: a in awards && a.id == id && AwardIsEligible(c, a, level, streams)
  }

  lemma OneMoreEligible(
    c: Content, level: Level, streams: seq<CandidateStream>, awards: seq<AwardType>, a: AwardType, ids: seq<AwardTypeId>)
    requires a.HigherScope? && (forall b :: b in awards ==> b.HigherScope?) && EligibleAmong(c, level, streams, awards, ids)
    ensures EligibleAmong(c, level, streams, awards + [a], if AwardIsEligible(c, a, level, streams) then AddOnce(ids, a.id) else ids)
  {
    hide AwardIsEligible, InAwardOrder, Distinct, AddOnce;
    forall id | id in ids ensures exists i :: 0 <= i < |awards| && awards[i].id == id {
      var b :| b in awards && b.id == id && AwardIsEligible(c, b, level, streams);
      var i :| 0 <= i < |awards| && awards[i] == b;
    }
    OneMoreInOrder(awards, a, ids);
    AddOnceIs(ids, a.id);
    assert forall b :: b in awards + [a] <==> b in awards || b == a;
  }

  lemma NextEligible(c: Content, level: Level, streams: seq<CandidateStream>, awards: seq<AwardType>, i: nat, ids: seq<AwardTypeId>)
    requires i < |awards| && (forall a :: a in awards ==> a.HigherScope?) && EligibleAmong(c, level, streams, awards[..i], ids)
    ensures EligibleAmong(c, level, streams, awards[..i + 1],
                          if AwardIsEligible(c, awards[i], level, streams) then AddOnce(ids, awards[i].id) else ids)
  {
    OneMoreEligible(c, level, streams, awards[..i], awards[i], ids);
    assert awards[..i + 1] == awards[..i] + [awards[i]];
  }

  method HigherScopeEligible(c: Content, level: Level, streams: seq<CandidateStream>) returns (eligible: seq<AwardTypeId>)
    ensures Distinct(eligible) && InAwardOrder(c.awards, eligible)
    ensures forall id :: id in eligible <==>
              exists a :: a in AwardsAt(c.awards, level) && a.id == id && AwardIsEligible(c, a, level, streams)
  {
    var awards := AwardsAt(c.awards, level);
    eligible := [];
    NothingInOrder();
    assert EligibleAmong(c, level, streams, awards[..0], eligible);
    hide AwardIsEligible, AddOnce, EligibleAmong, InAwardOrder, Precedes, Distinct, AwardsAt;
    for i := 0 to |awards|
      invariant EligibleAmong(c, level, streams, awards[..i], eligible)
    {
      NextEligible(c, level, streams, awards, i, eligible);
      if AwardIsEligible(c, awards[i], level, streams) {
        eligible := AddOnce(eligible, awards[i].id);
      }
    }
    assert awards[..|awards|] == awards;
    AllEligible(c, level, streams, eligible);
  }

  lemma AllEligible(c: Content, level: Level, streams: seq<CandidateStream>, ids: seq<AwardTypeId>)
    requires EligibleAmong(c, level, streams, AwardsAt(c.awards, level), ids)
    ensures Distinct(ids) && InAwardOrder(c.awards, ids)
    ensures forall id :: id in ids <==>
              exists a :: a in AwardsAt(c.awards, level) && a.id == id && AwardIsEligible(c, a, level, streams)
  {
    OrderOfAll(c.awards, level, ids);
    hide AwardsAt, InAwardOrder, AwardIsEligible;
  }

  lemma OrderOfAll(awards: seq<AwardType>, level: Level, ids: seq<AwardTypeId>)
    requires InAwardOrder(AwardsAt(awards, level), ids)
    ensures InAwardOrder(awards, ids)
  {
    hide Precedes, AwardsAt;
    forall p, q | 0 <= p < q < |ids| ensures Precedes(awards, ids[p], ids[q]) {
      PrecedesAt(awards, level, ids[p], ids[q]);
    }
  }

  /** Going on to one more award, whether or not its id is added. */
  lemma OneMoreInOrder(awards: seq<AwardType>, a: AwardType, ids: seq<AwardTypeId>)
    requires InAwardOrder(awards, ids) && forall id :: id in ids ==> exists i :: 0 <= i < |awards| && awards[i].id == id
    ensures InAwardOrder(awards + [a], ids) && InAwardOrder(awards + [a], AddOnce(ids, a.id))
  {
    hide Precedes;
    var more := AddOnce(ids, a.id);
    forall p, q | 0 <= p < q < |ids| ensures Precedes(awards + [a], ids[p], ids[q]) {
      PrecedesInLonger(awards, [a], ids[p], ids[q]);
    }
    if a.id !in ids {
      forall p | 0 <= p < |ids| ensures Precedes(awards + [a], ids[p], a.id) {
        assert ids[p] in ids;
        var i :| 0 <= i < |awards| && awards[i].id == ids[p];
        assert awards[i] in awards && a in [a];
        PrecedesInLonger(awards, [a], ids[p], a.id);
      }
      assert forall p :: 0 <= p < |ids| ==> more[p] == ids[p];
    }
  }

  // ---------------------------------------------------------------------------------------------
  // Breed, group and show scope: validating a proposal
  // ---------------------------------------------------------------------------------------------

  predicate OneHigherScope(c: Content, level: Level, streams: seq<CandidateStream>, x: Assignment) {
    match AwardOf(c, x.awardTypeId)
    case None => false
    case Some(a) => a.HigherScope? && a.level == level && DogAcceptable(c, a, streams, x.entryRef)
  }

  /** The dog's first candidacy across the award's feeder streams meets its minimum grade. */
  predicate DogAcceptable(c: Content, a: AwardType, streams: seq<CandidateStream>, ref: EntryRef)
    requires a.HigherScope?
  {
    match FindCandidate(FeederCandidates(a.fedBy, streams), ref)
    case None => false
    case Some(candidate) => MeetsMinimum(c, candidate.gradeId, a.minimumGradeId)
  }

  /** The dogs proposed for breed awards, in order. */
  function BreedRefs(c: Content, proposed: seq<Assignment>): seq<EntryRef>
    decreases |proposed|
  {
    if proposed == [] then []
    else
      var a := AwardOf(c, proposed[0].awardTypeId);
      (if a.Some? && a.value.HigherScope? && a.value.level == Breed then [proposed[0].entryRef] else [])
      + BreedRefs(c, proposed[1..])
  }

  predicate Carries(s: CandidateStream, ref: EntryRef) {
    exists i :: 0 <= i < |s.candidates| && s.candidates[i].entryRef == ref
  }

  /** The sex tag of the first stream carrying the dog. */
  function SexOfCandidate(streams: seq<CandidateStream>, ref: EntryRef): Option<Sex>
    decreases |streams|
  {
    if streams == [] then None
    else if Carries(streams[0], ref) then streams[0].sex
    else SexOfCandidate(streams[1..], ref)
  }

  predicate AllDifferent(refs: seq<EntryRef>) { forall i, j :: 0 <= i < j < |refs| ==> refs[i] != refs[j] }

  predicate BreedInvariantsHold(c: Content, level: Level, streams: seq<CandidateStream>, proposed: seq<Assignment>) {
    level == Breed ==>
      var refs := BreedRefs(c, proposed);
      && AllDifferent(refs)
      && (|refs| == 2 ==>
            var first, second := SexOfCandidate(streams, refs[0]), SexOfCandidate(streams, refs[1]);
            (first == Some(Male) && second == Some(Female)) || (first == Some(Female) && second == Some(Male)))
  }

  predicate Proposed(proposed: seq<Assignment>, id: AwardTypeId) {
    exists i :: 0 <= i < |proposed| && proposed[i].awardTypeId == id
  }

  /** A mandatory award that is eligible must be in the proposal. */
  predicate Owed(c: Content, a: AwardType, level: Level, streams: seq<CandidateStream>)
    requires a.HigherScope?
  {
    !a.isDiscretionary && AwardIsEligible(c, a, level, streams)
  }

  ghost predicate Accepted(c: Content, level: Level, streams: seq<CandidateStream>, proposed: seq<Assignment>) {
    && (forall i :: 0 <= i < |proposed| ==> OneHigherScope(c, level, streams, proposed[i]))
    && BreedInvariantsHold(c, level, streams, proposed)
    && (forall a :: a in AwardsAt(c.awards, level) && Owed(c, a, level, streams) ==> Proposed(proposed, a.id))
  }

  method ValidateHigherScope(c: Content, level: Level, streams: seq<CandidateStream>, proposed: seq<Assignment>)
    returns (valid: bool)
    ensures valid <==> Accepted(c, level, streams, proposed)
  {
    hide OneHigherScope, BreedInvariantsHold, AwardIsEligible;
    for i := 0 to |proposed|
      invariant forall j :: 0 <= j < i ==> OneHigherScope(c, level, streams, proposed[j])
    {
      if !OneHigherScope(c, level, streams, proposed[i]) { return false; }
    }
    if !BreedInvariantsHold(c, level, streams, proposed) { return false; }
    var awards := AwardsAt(c.awards, level);
    for i := 0 to |awards|
      invariant forall j :: 0 <= j < i && Owed(c, awards[j], level, streams) ==> Proposed(proposed, awards[j].id)
    {
      if awards[i].isDiscretionary { continue; }
      if Proposed(proposed, awards[i].id) { continue; }
      if AwardIsEligible(c, awards[i], level, streams) { return false; }
    }
    return true;
  }
}
