/**
 Composing layer editions into one snapshot and validating its cross-references
 (effective-ruleset.ts:181-386).
 */
module EffectiveRulesets {
  import opened Wrappers
  import opened LocalDates
  import opened RulesetModel
  import opened FeederGraph
  import opened MergeById
  import opened LayerPrecedence

  datatype ResolveError =
    | UnknownGradeScaleReference(classId: ClassId, gradeScaleId: GradeScaleId)
    | UnknownAwardTypeReference(classId: ClassId, awardTypeId: AwardTypeId)
    | UnknownMinimumGradeReference(awardId: AwardTypeId, minimumGradeId: GradeId)

  datatype EffectiveRuleset = EffectiveRuleset(
    id: string, resolvedFor: LocalDate, sourceEditions: seq<EditionReference>, content: Content)

  // ---------------------------------------------------------------------------------------------
  // The snapshot's lookups
  // ---------------------------------------------------------------------------------------------

  function AwardOf(c: Content, id: AwardTypeId): Option<AwardType> { Find(c.awards, AwardIdOf, id) }
  function ClassOf(c: Content, id: ClassId): Option<ClassDefinition> { Find(c.classes, ClassIdOf, id) }
  function ScaleOf(c: Content, id: GradeScaleId): Option<GradeScale> { Find(c.scales, ScaleIdOf, id) }

  function GradeOn(c: Content, id: GradeId, scaleId: GradeScaleId): Option<Grade> {
    match ScaleOf(c, scaleId)
    case None => None
    case Some(scale) => scale.GradeOf(id)
  }

  ghost predicate UniqueContent(c: Content) {
    && UniqueIds(c.classes, ClassIdOf) && UniqueIds(c.scales, ScaleIdOf)
    && UniqueIds(c.awards, AwardIdOf) && UniqueIds(c.showTypes, ShowTypeIdOf)
  }

  function GraphOf(c: Content): Graph {
    Graph(c.classes, ById(c.classes, ClassIdOf), ById(c.awards, AwardIdOf))
  }

  // ---------------------------------------------------------------------------------------------
  // What a valid snapshot is
  // ---------------------------------------------------------------------------------------------

  /** The class's scale exists, its awards exist, and each individual one has its minimum grade on that scale. */
  ghost predicate ClassWellFormed(c: Content, k: ClassDefinition) {
    && ScaleOf(c, k.gradeScaleId).Some?
    && forall id :: id in k.awardTypeIds ==> NamedAwardWellFormed(c, k, id)
  }

  ghost predicate NamedAwardWellFormed(c: Content, k: ClassDefinition, id: AwardTypeId) {
    && AwardOf(c, id).Some?
    && var a := AwardOf(c, id).value; !a.Collective? ==> GradeOn(c, a.minimumGradeId, k.gradeScaleId).Some?
  }

  /** No scale feeds the award, or its minimum grade is on at least one scale that does. */
  ghost predicate MinimumGradeResolves(c: Content, a: AwardType)
    requires a.HigherScope?
  {
    || (forall s :: !GraphOf(c).ScaleReachable(a.id, s))
    || (exists s :: GraphOf(c).ScaleReachable(a.id, s) && GradeOn(c, a.minimumGradeId, s).Some?)
  }

  ghost predicate WellFormed(c: Content) {
    && (forall k :: k in c.classes ==> ClassWellFormed(c, k))
    && (forall a :: a in c.awards && a.HigherScope? ==> MinimumGradeResolves(c, a))
  }

  // ---------------------------------------------------------------------------------------------
  // The first violation, in the order the validator looks
  // ---------------------------------------------------------------------------------------------

  function NamedAwardError(c: Content, k: ClassDefinition, id: AwardTypeId): Option<ResolveError> {
    match AwardOf(c, id)
    case None => Some(UnknownAwardTypeReference(k.id, id))
    case Some(a) =>
      if !a.Collective? && GradeOn(c, a.minimumGradeId, k.gradeScaleId).None?
      then Some(UnknownMinimumGradeReference(a.id, a.minimumGradeId))
      else None
  }

  function NamedAwardsError(c: Content, k: ClassDefinition, ids: seq<AwardTypeId>): Option<ResolveError>
    decreases |ids|
  {
    if ids == [] then None
    else
      var e := NamedAwardError(c, k, ids[0]);
      if e.Some? then e else NamedAwardsError(c, k, ids[1..])
  }

  function ClassError(c: Content, k: ClassDefinition): Option<ResolveError> {
    if ScaleOf(c, k.gradeScaleId).None? then Some(UnknownGradeScaleReference(k.id, k.gradeScaleId))
    else NamedAwardsError(c, k, k.awardTypeIds)
  }

  function ClassesError(c: Content, classes: seq<ClassDefinition>): Option<ResolveError>
    decreases |classes|
  {
    if classes == [] then None
    else
      var e := ClassError(c, classes[0]);
      if e.Some? then e else ClassesError(c, classes[1..])
  }

  ghost function AwardError(c: Content, a: AwardType): Option<ResolveError> {
    if a.HigherScope? && !MinimumGradeResolves(c, a)
    then Some(UnknownMinimumGradeReference(a.id, a.minimumGradeId))
    else None
  }

  ghost function AwardsError(c: Content, awards: seq<AwardType>): Option<ResolveError>
    decreases |awards|
  {
    if awards == [] then None
    else
      var e := AwardError(c, awards[0]);
      if e.Some? then e else AwardsError(c, awards[1..])
  }

  ghost function ReferenceError(c: Content): Option<ResolveError> {
    var e := ClassesError(c, c.classes);
    if e.Some? then e else AwardsError(c, c.awards)
  }

  lemma {:induction false} NamedAwardsErrorNone(c: Content, k: ClassDefinition, ids: seq<AwardTypeId>)
    ensures NamedAwardsError(c, k, ids).None? <==> forall id :: id in ids ==> NamedAwardWellFormed(c, k, id)
    decreases |ids|
  {
    if ids != [] {
      NamedAwardsErrorNone(c, k, ids[1..]);
      assert NamedAwardError(c, k, ids[0]).None? <==> NamedAwardWellFormed(c, k, ids[0]);
      hide NamedAwardWellFormed, NamedAwardError;
      assert forall id :: id in ids <==> id == ids[0] || id in ids[1..];
    }
  }

  lemma {:induction false} ClassesErrorNone(c: Content, classes: seq<ClassDefinition>)
    ensures ClassesError(c, classes).None? <==> forall k :: k in classes ==> ClassWellFormed(c, k)
    decreases |classes|
  {
    if classes != [] {
      NamedAwardsErrorNone(c, classes[0], classes[0].awardTypeIds);
      ClassesErrorNone(c, classes[1..]);
      assert ClassError(c, classes[0]).None? <==> ClassWellFormed(c, classes[0]);
      hide ClassError, ClassWellFormed, NamedAwardsError;
      assert forall k :: k in classes <==> k == classes[0] || k in classes[1..];
    }
  }

  lemma {:induction false} AwardsErrorNone(c: Content, awards: seq<AwardType>)
    ensures AwardsError(c, awards).None? <==>
            forall a :: a in awards && a.HigherScope? ==> MinimumGradeResolves(c, a)
    decreases |awards|
  {
    hide MinimumGradeResolves;
    if awards != [] {
      AwardsErrorNone(c, awards[1..]);
      assert awards == [awards[0]] + awards[1..];
    }
  }

  /** The validator is silent exactly on well-formed snapshots. */
  lemma NoErrorIffWellFormed(c: Content)
    ensures ReferenceError(c).None? <==> WellFormed(c)
  {
    hide ClassesError, AwardsError, ClassWellFormed, MinimumGradeResolves;
    ClassesErrorNone(c, c.classes);
    AwardsErrorNone(c, c.awards);
  }

  /** The error names a reference of the snapshot that really is broken. */
  ghost predicate IsViolation(c: Content, e: ResolveError) {
    match e
    case UnknownGradeScaleReference(classId, scaleId) =>
      exists k :: k in c.classes && k.id == classId && k.gradeScaleId == scaleId && ScaleOf(c, scaleId).None?
    case UnknownAwardTypeReference(classId, awardId) =>
      exists k :: k in c.classes && k.id == classId && awardId in k.awardTypeIds && AwardOf(c, awardId).None?
    case UnknownMinimumGradeReference(awardId, gradeId) =>
      || (exists k, a :: && k in c.classes && awardId in k.awardTypeIds && AwardOf(c, awardId) == Some(a) && !a.Collective?
                         && a.id == awardId && a.minimumGradeId == gradeId && GradeOn(c, gradeId, k.gradeScaleId).None?)
      || (exists a :: a in c.awards && a.HigherScope? && a.id == awardId && a.minimumGradeId == gradeId && !MinimumGradeResolves(c, a))
  }

  lemma {:induction false} NamedAwardsViolation(c: Content, k: ClassDefinition, ids: seq<AwardTypeId>)
    requires k in c.classes && forall id :: id in ids ==> id in k.awardTypeIds
    requires NamedAwardsError(c, k, ids).Some?
    ensures IsViolation(c, NamedAwardsError(c, k, ids).value)
    decreases |ids|
  {
    hide MinimumGradeResolves;
    if NamedAwardError(c, k, ids[0]).Some? {
      assert ids[0] in ids;
      FindSpec(c.awards, AwardIdOf, ids[0]);
    } else {
      NamedAwardsViolation(c, k, ids[1..]);
    }
  }

  lemma {:induction false} ClassesViolation(c: Content, classes: seq<ClassDefinition>)
    requires forall k :: k in classes ==> k in c.classes
    requires ClassesError(c, classes).Some?
    ensures IsViolation(c, ClassesError(c, classes).value)
    decreases |classes|
  {
    hide MinimumGradeResolves, NamedAwardError;
    var k := classes[0];
    assert k in classes;
    if ClassError(c, k).Some? {
      if ScaleOf(c, k.gradeScaleId).Some? {
        NamedAwardsViolation(c, k, k.awardTypeIds);
      }
    } else {
      ClassesViolation(c, classes[1..]);
    }
  }

  lemma {:induction false} AwardsViolation(c: Content, awards: seq<AwardType>)
    requires forall a :: a in awards ==> a in c.awards
    requires AwardsError(c, awards).Some?
    ensures IsViolation(c, AwardsError(c, awards).value)
    decreases |awards|
  {
    hide MinimumGradeResolves, NamedAwardError;
    assert awards[0] in awards;
    if AwardError(c, awards[0]).None? {
      AwardsViolation(c, awards[1..]);
    }
  }

  /** A refusal always points at a real fault. */
  lemma ErrorIsViolation(c: Content)
    requires ReferenceError(c).Some?
    ensures IsViolation(c, ReferenceError(c).value)
  {
    hide IsViolation, ClassesError, AwardsError;
    if ClassesError(c, c.classes).Some? { ClassesViolation(c, c.classes); } else { AwardsViolation(c, c.awards); }
  }

  /** Class `i` is the first that is not well formed. */
  ghost predicate FirstBrokenClass(c: Content, i: int) {
    0 <= i < |c.classes| && !ClassWellFormed(c, c.classes[i]) && forall j :: 0 <= j < i ==> ClassWellFormed(c, c.classes[j])
  }

  /** Every class is well formed, and award `i` is the first higher-scope one whose minimum grade does not resolve. */
  ghost predicate FirstBrokenAward(c: Content, i: int) {
    && (forall k :: k in c.classes ==> ClassWellFormed(c, k))
    && 0 <= i < |c.awards| && c.awards[i].HigherScope? && !MinimumGradeResolves(c, c.awards[i])
    && forall j :: 0 <= j < i && c.awards[j].HigherScope? ==> MinimumGradeResolves(c, c.awards[j])
  }

  lemma {:induction false} FirstClassError(c: Content, n: nat)
    requires n <= |c.classes| && ClassesError(c, c.classes[n..]).Some?
    ensures exists i :: && n <= i < |c.classes| && !ClassWellFormed(c, c.classes[i])
                        && (forall j :: n <= j < i ==> ClassWellFormed(c, c.classes[j]))
                        && ClassesError(c, c.classes[n..]) == ClassError(c, c.classes[i])
    decreases |c.classes| - n
  {
    var k := c.classes[n];
    assert c.classes[n..][0] == k && c.classes[n..][1..] == c.classes[n + 1..];
    NamedAwardsErrorNone(c, k, k.awardTypeIds);
    hide NamedAwardsError, NamedAwardWellFormed;
    if ClassWellFormed(c, k) {
      FirstClassError(c, n + 1);
    }
  }

  lemma {:induction false} FirstAwardError(c: Content, n: nat)
    requires n <= |c.awards| && AwardsError(c, c.awards[n..]).Some?
    ensures exists i :: && n <= i < |c.awards| && c.awards[i].HigherScope? && !MinimumGradeResolves(c, c.awards[i])
                        && (forall j :: n <= j < i && c.awards[j].HigherScope? ==> MinimumGradeResolves(c, c.awards[j]))
                        && AwardsError(c, c.awards[n..]) ==
                             Some(UnknownMinimumGradeReference(c.awards[i].id, c.awards[i].minimumGradeId))
    decreases |c.awards| - n
  {
    hide MinimumGradeResolves;
    assert c.awards[n..][0] == c.awards[n] && c.awards[n..][1..] == c.awards[n + 1..];
    if AwardError(c, c.awards[n]).None? {
      FirstAwardError(c, n + 1);
    }
  }

  /** The error is that of the first broken class, or else of the first broken award. */
  lemma ErrorIsFirst(c: Content)
    requires ReferenceError(c).Some?
    ensures || (exists i :: FirstBrokenClass(c, i) && ReferenceError(c) == ClassError(c, c.classes[i]))
            || (exists i :: FirstBrokenAward(c, i) && ReferenceError(c) ==
                              Some(UnknownMinimumGradeReference(c.awards[i].id, c.awards[i].minimumGradeId)))
  {
    assert c.classes[0..] == c.classes && c.awards[0..] == c.awards;
    ClassesErrorNone(c, c.classes);
    hide ClassesError, AwardsError, ClassError, ClassWellFormed, MinimumGradeResolves;
    if ClassesError(c, c.classes).Some? {
      FirstClassError(c, 0);
      var i :| && 0 <= i < |c.classes| && !ClassWellFormed(c, c.classes[i]) && (forall j :: 0 <= j < i ==> ClassWellFormed(c, c.classes[j]))
               && ClassesError(c, c.classes) == ClassError(c, c.classes[i]);
      assert FirstBrokenClass(c, i);
    } else {
      FirstAwardError(c, 0);
      var i :| && 0 <= i < |c.awards| && c.awards[i].HigherScope? && !MinimumGradeResolves(c, c.awards[i])
               && (forall j :: 0 <= j < i && c.awards[j].HigherScope? ==> MinimumGradeResolves(c, c.awards[j]))
               && AwardsError(c, c.awards) == Some(UnknownMinimumGradeReference(c.awards[i].id, c.awards[i].minimumGradeId));
      assert FirstBrokenAward(c, i);
    }
  }

  /**
   The class comment asks for the minimum grade on every reachable scale (effective-ruleset.ts:107-111);
   the code asks for one (:363-365). This snapshot is accepted although its show award's minimum grade is
   missing from a scale that feeds it.
   */
  lemma OneReachableScaleIsEnough() returns (c: Content, a: AwardType, s: GradeScaleId)
    ensures UniqueContent(c) && WellFormed(c)
    ensures a in c.awards && a.HigherScope? && GraphOf(c).ScaleReachable(a.id, s)
    ensures GradeOn(c, a.minimumGradeId, s).None?
  {
    var adultScale, puppyScale := GradeScaleId("adult"), GradeScaleId("puppy");
    var excellent := GradeId("excellent");
    var adult := ClassDefinition(ClassId("open"), None, None, [], false, adultScale, []);
    var puppy := ClassDefinition(ClassId("puppy"), None, None, [], false, puppyScale, []);
    var onAdult, onPuppy := GradeScale(adultScale, [Grade(excellent, 0)]), GradeScale(puppyScale, []);
    a := HigherScope(AwardTypeId("best-in-show"), excellent, None, false, Show, [ClassFeeder(adult.id), ClassFeeder(puppy.id)]);
    s := puppyScale;
    c := Content([adult, puppy], [onAdult, onPuppy], [a], []);
    assert adult.id != puppy.id by { assert |adult.id.text| != |puppy.id.text|; }
    assert adultScale != puppyScale by { assert adultScale.text[0] != puppyScale.text[0]; }
    TwoFeeders(c, a, adult, puppy, onAdult, onPuppy);
  }

  lemma TwoFeeders(c: Content, a: AwardType, k1: ClassDefinition, k2: ClassDefinition, s1: GradeScale, s2: GradeScale)
    requires c == Content([k1, k2], [s1, s2], [a], []) && k1.id != k2.id && s1.id != s2.id
    requires a.HigherScope? && a.fedBy == [ClassFeeder(k1.id), ClassFeeder(k2.id)]
    requires k1.gradeScaleId == s1.id && k2.gradeScaleId == s2.id && k1.awardTypeIds == k2.awardTypeIds == []
    requires s1.GradeOf(a.minimumGradeId).Some?
    ensures UniqueContent(c) && WellFormed(c)
    ensures GraphOf(c).ScaleReachable(a.id, s1.id) && GraphOf(c).ScaleReachable(a.id, s2.id)
    ensures GradeOn(c, a.minimumGradeId, s2.id) == s2.GradeOf(a.minimumGradeId)
  {
    hide Graph.ReachesIn;
    var g := GraphOf(c);
    TwoById(k1, k2);
    OneById(a);
    g.ReachesSelf(a.id);
    assert g.Contributes(a.fedBy[0], s1.id) && g.Contributes(a.fedBy[1], s2.id);
    assert g.FedDirectly(a.id, s1.id) && g.FedDirectly(a.id, s2.id);
    TwoFind(s1, s2);
    assert MinimumGradeResolves(c, a) by {
      assert g.ScaleReachable(a.id, s1.id) && GradeOn(c, a.minimumGradeId, s1.id).Some?;
    }
  }

  lemma OneById(a: AwardType)
    ensures var m := ById([a], AwardIdOf); a.id in m && m[a.id] == a
  {
  }

  lemma TwoFind(s1: GradeScale, s2: GradeScale)
    requires s1.id != s2.id
    ensures Find([s1, s2], ScaleIdOf, s1.id) == Some(s1) && Find([s1, s2], ScaleIdOf, s2.id) == Some(s2)
  {
    assert [s1, s2][1..] == [s2];
    assert [s2][0] == s2 && Find([s2], ScaleIdOf, s2.id) == Some(s2);
  }

  lemma TwoById(k1: ClassDefinition, k2: ClassDefinition)
    requires k1.id != k2.id
    ensures var m := ById([k1, k2], ClassIdOf); k1.id in m && m[k1.id] == k1 && k2.id in m && m[k2.id] == k2
  {
    assert [k1, k2][..1] == [k1] && [k1][..0] == [];
  }

  // ---------------------------------------------------------------------------------------------
  // The validator
  // ---------------------------------------------------------------------------------------------

  lemma MapsAgree(c: Content)
    requires UniqueContent(c)
    ensures forall id :: Get(ById(c.awards, AwardIdOf), id) == AwardOf(c, id)
    ensures forall id :: Get(ById(c.scales, ScaleIdOf), id) == ScaleOf(c, id)
    ensures forall id :: Get(ById(c.classes, ClassIdOf), id) == ClassOf(c, id)
  {
    hide ById, Find;
    forall id ensures Get(ById(c.awards, AwardIdOf), id) == AwardOf(c, id) { LookupsAgree(c.awards, AwardIdOf, id); }
    forall id ensures Get(ById(c.scales, ScaleIdOf), id) == ScaleOf(c, id) { LookupsAgree(c.scales, ScaleIdOf, id); }
    forall id ensures Get(ById(c.classes, ClassIdOf), id) == ClassOf(c, id) { LookupsAgree(c.classes, ClassIdOf, id); }
  }

  /** Every listed award is a node of the graph under its own id. */
  lemma AwardsAreNodes(c: Content, i: nat)
    requires UniqueContent(c) && i < |c.awards|
    ensures GraphOf(c).Valid()
    ensures c.awards[i].HigherScope? ==> IsNode(GraphOf(c), c.awards[i])
  {
    hide ById;
    forall id ensures id in ById(c.awards, AwardIdOf) ==> ById(c.awards, AwardIdOf)[id].id == id {
      ByIdSpec(c.awards, AwardIdOf, id);
    }
    var id := AwardIdOf(c.awards[i]);
    ByIdSpec(c.awards, AwardIdOf, id);
    assert Mentions(c.awards, AwardIdOf, id);
    assert LastAt(c.awards, AwardIdOf, id) == i;
  }

  method ValidateReferences(c: Content) returns (error: Option<ResolveError>)
    requires UniqueContent(c)
    ensures error == ReferenceError(c)
  {
    hide ReferenceError, NamedAwardError, ClassWellFormed, AwardError, GraphOf, Find, ById;
    var scaleById, awardById := ById(c.scales, ScaleIdOf), ById(c.awards, AwardIdOf);
    MapsAgree(c);
    for i := 0 to |c.classes|
      invariant ClassesError(c, c.classes[i..]) == ClassesError(c, c.classes)
    {
      error := ValidateClass(c, c.classes[i], scaleById, awardById);
      assert c.classes[i..][0] == c.classes[i] && c.classes[i..][1..] == c.classes[i + 1..];
      if error.Some? {
        ReferenceErrorIs(c);
        return;
      }
    }
    assert c.classes[|c.classes|..] == [];
    error := ValidateHigherScopeMinimumGrades(c, scaleById, awardById);
    ReferenceErrorIs(c);
  }

  lemma ReferenceErrorIs(c: Content)
    ensures ReferenceError(c) ==
            if ClassesError(c, c.classes).Some? then ClassesError(c, c.classes) else AwardsError(c, c.awards)
  {
  }

  method ValidateClass(c: Content, k: ClassDefinition, scaleById: map<GradeScaleId, GradeScale>, awardById: map<AwardTypeId, AwardType>)
    returns (error: Option<ResolveError>)
    requires forall id :: Get(awardById, id) == AwardOf(c, id)
    requires forall id :: Get(scaleById, id) == ScaleOf(c, id)
    ensures error == ClassError(c, k)
  {
    hide Find;
    assert Get(scaleById, k.gradeScaleId) == ScaleOf(c, k.gradeScaleId);
    if k.gradeScaleId !in scaleById {
      return Some(UnknownGradeScaleReference(k.id, k.gradeScaleId));
    }
    var scale := scaleById[k.gradeScaleId];
    var ids := k.awardTypeIds;
    for j := 0 to |ids|
      invariant NamedAwardsError(c, k, ids[j..]) == NamedAwardsError(c, k, ids)
    {
      assert ids[j..][0] == ids[j] && ids[j..][1..] == ids[j + 1..];
      assert Get(awardById, ids[j]) == AwardOf(c, ids[j]);
      if ids[j] !in awardById {
        return Some(UnknownAwardTypeReference(k.id, ids[j]));
      }
      var a := awardById[ids[j]];
      if !a.Collective? && scale.GradeOf(a.minimumGradeId).None? {
        return Some(UnknownMinimumGradeReference(a.id, a.minimumGradeId));
      }
    }
    assert ids[|ids|..] == [];
    return None;
  }

  method ValidateHigherScopeMinimumGrades(c: Content, scaleById: map<GradeScaleId, GradeScale>, awardById: map<AwardTypeId, AwardType>)
    returns (error: Option<ResolveError>)
    requires UniqueContent(c) && awardById == ById(c.awards, AwardIdOf)
    requires forall id :: Get(scaleById, id) == ScaleOf(c, id)
    ensures error == AwardsError(c, c.awards)
  {
    hide ById, AwardError, UniqueContent;
    var byAward := GroupClassesByAwardTypeId(c.classes);
    var lookups := Lookups(Graph(c.classes, ById(c.classes, ClassIdOf), awardById), byAward);
    for i := 0 to |c.awards|
      invariant AwardsError(c, c.awards[i..]) == AwardsError(c, c.awards)
    {
      var a := c.awards[i];
      assert c.awards[i..][0] == a && c.awards[i..][1..] == c.awards[i + 1..];
      AwardsAreNodes(c, i);
      if a.HigherScope? {
        error := ValidateOneHigherScopeMinimumGrade(c, a, lookups, scaleById);
        if error.Some? { return; }
      } else {
        NotHigherScope(c, a);
      }
    }
    assert c.awards[|c.awards|..] == [];
    return None;
  }

  lemma NotHigherScope(c: Content, a: AwardType)
    requires !a.HigherScope?
    ensures AwardError(c, a).None?
  {
  }

  method ValidateOneHigherScopeMinimumGrade(c: Content, a: AwardType, lookups: Lookups, scaleById: map<GradeScaleId, GradeScale>)
    returns (error: Option<ResolveError>)
    requires lookups.Valid() && lookups.graph == GraphOf(c) && IsNode(lookups.graph, a)
    requires forall id :: Get(scaleById, id) == ScaleOf(c, id)
    ensures error == AwardError(c, a)
  {
    var visiting := new Visiting();
    var scaleIds := ReachableGradeScaleIds(a, lookups, visiting);
    WalkIsReachability(lookups.graph, a.id, visiting.ids, scaleIds);
    hide Walked, GraphOf, Graph.ScaleReachable, IsNode, Lookups.Valid, AwardError;
    FromReachable(c, a, scaleIds, scaleById);
    if scaleIds == {} { return None; }
    var resolves := exists s :: s in scaleIds && s in scaleById && scaleById[s].GradeOf(a.minimumGradeId).Some?;
    if !resolves {
      return Some(UnknownMinimumGradeReference(a.id, a.minimumGradeId));
    }
    return None;
  }

  /** The minimum grade resolves by the set of reachable scales exactly when it does by reachability. */
  lemma FromReachable(c: Content, a: AwardType, scaleIds: set<GradeScaleId>, scaleById: map<GradeScaleId, GradeScale>)
    requires a.HigherScope? && (forall s :: s in scaleIds <==> GraphOf(c).ScaleReachable(a.id, s))
    requires forall id :: Get(scaleById, id) == ScaleOf(c, id)
    ensures var resolves := scaleIds == {} || exists s :: s in scaleIds && s in scaleById && scaleById[s].GradeOf(a.minimumGradeId).Some?;
            AwardError(c, a) == if resolves then None else Some(UnknownMinimumGradeReference(a.id, a.minimumGradeId))
  {
    hide GraphOf, Graph.ScaleReachable, Find;
    assert forall s :: s in scaleIds ==> Get(scaleById, s) == ScaleOf(c, s);
    hide ScaleOf;
  }

  // ---------------------------------------------------------------------------------------------
  // resolve
  // ---------------------------------------------------------------------------------------------

  /** `editions.flatMap(...)` */
  function Flat<T>(editions: seq<Edition>, get: Edition -> seq<T>): seq<T>
    decreases |editions|
  {
    if editions == [] then [] else
    var n := |editions| - 1;
    Flat(editions[..n], get) + get(editions[n])
  }

  function AllClasses(editions: seq<Edition>): seq<ClassDefinition> { Flat(editions, (e: Edition) => e.content.classes) }
  function AllScales(editions: seq<Edition>): seq<GradeScale> { Flat(editions, (e: Edition) => e.content.scales) }
  function AllAwards(editions: seq<Edition>): seq<AwardType> { Flat(editions, (e: Edition) => e.content.awards) }
  function AllShowTypes(editions: seq<Edition>): seq<ShowType> { Flat(editions, (e: Edition) => e.content.showTypes) }

  function Compose(editions: seq<Edition>): Content {
    Content(
      Merged(AllClasses(editions), ClassIdOf), Merged(AllScales(editions), ScaleIdOf),
      Merged(AllAwards(editions), AwardIdOf), Merged(AllShowTypes(editions), ShowTypeIdOf))
  }

  function ReferenceTo(e: Edition): EditionReference { EditionReference(e.layerId, e.effectiveFrom) }

  function SourceEditions(editions: seq<Edition>): seq<EditionReference> {
    seq(|editions|, i requires 0 <= i < |editions| => ReferenceTo(editions[i]))
  }

  ghost function Resolution(id: string, editions: seq<Edition>, resolvedFor: LocalDate): Result<EffectiveRuleset, ResolveError> {
    match ReferenceError(Compose(editions))
    case Some(e) => Failure(e)
    case None => Success(EffectiveRuleset(id, resolvedFor, SourceEditions(editions), Compose(editions)))
  }

  method Resolve(id: string, editions: seq<Edition>, resolvedFor: LocalDate)
    returns (r: Result<EffectiveRuleset, ResolveError>)
    ensures r == Resolution(id, editions, resolvedFor)
  {
    var classes := MergeItems(AllClasses(editions), ClassIdOf);
    var scales := MergeItems(AllScales(editions), ScaleIdOf);
    var awards := MergeItems(AllAwards(editions), AwardIdOf);
    var showTypes := MergeItems(AllShowTypes(editions), ShowTypeIdOf);
    var c := Content(classes, scales, awards, showTypes);
    ComposedUnique(editions);
    var error := ValidateReferences(c);
    if error.Some? { return Failure(error.value); }
    return Success(EffectiveRuleset(id, resolvedFor, SourceEditions(editions), c));
  }

  lemma ComposedUnique(editions: seq<Edition>)
    ensures UniqueContent(Compose(editions))
  {
    hide Merged, Flat;
    MergedIsMerge(AllClasses(editions), ClassIdOf);
    MergedIsMerge(AllScales(editions), ScaleIdOf);
    MergedIsMerge(AllAwards(editions), AwardIdOf);
    MergedIsMerge(AllShowTypes(editions), ShowTypeIdOf);
  }

  lemma {:induction false} FlatIsConcat<T>(editions: seq<Edition>, get: Edition -> seq<T>, lists: seq<seq<T>>)
    requires |lists| == |editions| && forall i :: 0 <= i < |lists| ==> lists[i] == get(editions[i])
    ensures Flat(editions, get) == Concat(lists)
    decreases |editions|
  {
    if editions != [] {
      var n := |editions| - 1;
      FlatIsConcat(editions[..n], get, lists[..n]);
    }
  }

  /** The snapshot layers the editions' own collections: the last edition in the list wins, id by id. */
  ghost predicate LayersOf(editions: seq<Edition>, c: Content) {
    && Layered(seq(|editions|, i requires 0 <= i < |editions| => editions[i].content.classes), ClassIdOf, c.classes)
    && Layered(seq(|editions|, i requires 0 <= i < |editions| => editions[i].content.scales), ScaleIdOf, c.scales)
    && Layered(seq(|editions|, i requires 0 <= i < |editions| => editions[i].content.awards), AwardIdOf, c.awards)
    && Layered(seq(|editions|, i requires 0 <= i < |editions| => editions[i].content.showTypes), ShowTypeIdOf, c.showTypes)
  }

  lemma ComposedLayers(editions: seq<Edition>)
    ensures LayersOf(editions, Compose(editions))
  {
    hide Layered, Merged, Flat, Concat, IsMerge;
    var classes := seq(|editions|, i requires 0 <= i < |editions| => editions[i].content.classes);
    FlatIsConcat(editions, (e: Edition) => e.content.classes, classes);
    MergedIsMerge(AllClasses(editions), ClassIdOf);
    MergedIsLayered(classes, ClassIdOf, Compose(editions).classes);
    var scales := seq(|editions|, i requires 0 <= i < |editions| => editions[i].content.scales);
    FlatIsConcat(editions, (e: Edition) => e.content.scales, scales);
    MergedIsMerge(AllScales(editions), ScaleIdOf);
    MergedIsLayered(scales, ScaleIdOf, Compose(editions).scales);
    var awards := seq(|editions|, i requires 0 <= i < |editions| => editions[i].content.awards);
    FlatIsConcat(editions, (e: Edition) => e.content.awards, awards);
    MergedIsMerge(AllAwards(editions), AwardIdOf);
    MergedIsLayered(awards, AwardIdOf, Compose(editions).awards);
    var showTypes := seq(|editions|, i requires 0 <= i < |editions| => editions[i].content.showTypes);
    FlatIsConcat(editions, (e: Edition) => e.content.showTypes, showTypes);
    MergedIsMerge(AllShowTypes(editions), ShowTypeIdOf);
    MergedIsLayered(showTypes, ShowTypeIdOf, Compose(editions).showTypes);
  }

  /** The collections with the editions they came from. */
  ghost predicate ComesFrom(s: EffectiveRuleset, id: string, editions: seq<Edition>, resolvedFor: LocalDate) {
    && s.id == id && s.resolvedFor == resolvedFor && LayersOf(editions, s.content)
    && |s.sourceEditions| == |editions|
    && forall i :: 0 <= i < |editions| ==>
         s.sourceEditions[i].layerId == editions[i].layerId && s.sourceEditions[i].effectiveFrom == editions[i].effectiveFrom
  }

  /**
   `resolve` succeeds exactly when the editions, layered by id, make a well-formed snapshot; what it returns is that
   snapshot, with unique ids and valid references, so no consumer re-checks them. A failure names a broken reference.
   */
  lemma ResolveIffWellFormed(id: string, editions: seq<Edition>, resolvedFor: LocalDate)
    ensures LayersOf(editions, Compose(editions)) && UniqueContent(Compose(editions))
    ensures match Resolution(id, editions, resolvedFor)
            case Success(s) =>
              WellFormed(Compose(editions)) && s.content == Compose(editions) && Resolved(s.content)
              && ComesFrom(s, id, editions, resolvedFor)
            case Failure(e) => !WellFormed(Compose(editions)) && IsViolation(Compose(editions), e)
  {
    hide ReferenceError, WellFormed, UniqueContent, LayersOf, IsViolation, Compose;
    NoErrorIffWellFormed(Compose(editions));
    if ReferenceError(Compose(editions)).Some? { ErrorIsViolation(Compose(editions)); }
    ComposedUnique(editions);
    ComposedLayers(editions);
  }

  /** What consumers of a resolved snapshot may rely on. */
  ghost predicate Resolved(c: Content) {
    UniqueContent(c) && WellFormed(c)
  }
}
