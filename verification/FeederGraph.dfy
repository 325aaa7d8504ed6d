/**
 The walk over the `fedBy` feeder graph, which may be cyclic and may name awards and classes that do
 not exist, against reachability stated inductively (effective-ruleset.ts:308-442).
 */
module FeederGraph {
  import opened Wrappers
  import opened RulesetModel

  // ---------------------------------------------------------------------------------------------
  // Classes by the award types they name
  // ---------------------------------------------------------------------------------------------

  /** `c`, once for each occurrence of `id` among the first `n` of its award type ids. */
  function Occurrences(c: ClassDefinition, n: nat, id: AwardTypeId): seq<ClassDefinition>
    requires n <= |c.awardTypeIds|
  {
    if n == 0 then []
    else Occurrences(c, n - 1, id) + if c.awardTypeIds[n - 1] == id then [c] else []
  }

  /** The classes naming `id`, in order. */
  function Naming(classes: seq<ClassDefinition>, id: AwardTypeId): seq<ClassDefinition> {
    if classes == [] then []
    else
      var n := |classes| - 1;
      Naming(classes[..n], id) + Occurrences(classes[n], |classes[n].awardTypeIds|, id)
  }

  /** The grouping holds exactly the non-empty groups. */
  ghost predicate Groups(m: map<AwardTypeId, seq<ClassDefinition>>, classes: seq<ClassDefinition>) {
    forall id :: IsGroup(m, id, Naming(classes, id))
  }

  ghost predicate IsGroup(m: map<AwardTypeId, seq<ClassDefinition>>, id: AwardTypeId, group: seq<ClassDefinition>) {
    if id in m then m[id] == group && group != [] else group == []
  }

  /** The grouping part-way through the award type ids of `c`. */
  ghost predicate Grouping(m: map<AwardTypeId, seq<ClassDefinition>>, done: seq<ClassDefinition>, c: ClassDefinition, j: nat)
    requires j <= |c.awardTypeIds|
  {
    forall id :: IsGroup(m, id, Naming(done, id) + Occurrences(c, j, id))
  }

  method GroupClassesByAwardTypeId(classes: seq<ClassDefinition>)
    returns (byAward: map<AwardTypeId, seq<ClassDefinition>>)
    ensures Groups(byAward, classes)
  {
    byAward := map[];
    for i := 0 to |classes|
      invariant Groups(byAward, classes[..i])
    {
      var c := classes[i];
      GroupingStart(byAward, classes[..i], c);
      for j := 0 to |c.awardTypeIds|
        invariant Grouping(byAward, classes[..i], c, j)
      {
        ghost var m := byAward;
        var awardTypeId := c.awardTypeIds[j];
        if awardTypeId in byAward {
          byAward := byAward[awardTypeId := byAward[awardTypeId] + [c]];
        } else {
          byAward := byAward[awardTypeId := [c]];
        }
        GroupingStep(m, classes[..i], c, j, byAward);
      }
      GroupingEnd(byAward, classes, i);
    }
    assert classes[..|classes|] == classes;
  }

  lemma GroupingStart(m: map<AwardTypeId, seq<ClassDefinition>>, done: seq<ClassDefinition>, c: ClassDefinition)
    requires Groups(m, done)
    ensures Grouping(m, done, c, 0)
  {
    hide Naming;
    forall id ensures IsGroup(m, id, Naming(done, id) + Occurrences(c, 0, id)) {
      assert Naming(done, id) + [] == Naming(done, id);
    }
  }

  lemma GroupingStep(m: map<AwardTypeId, seq<ClassDefinition>>, done: seq<ClassDefinition>, c: ClassDefinition, j: nat,
                     m': map<AwardTypeId, seq<ClassDefinition>>)
    requires j < |c.awardTypeIds| && Grouping(m, done, c, j)
    requires var k := c.awardTypeIds[j]; m' == m[k := if k in m then m[k] + [c] else [c]]
    ensures Grouping(m', done, c, j + 1)
  {
    hide Naming;
    forall id ensures IsGroup(m', id, Naming(done, id) + Occurrences(c, j + 1, id)) {
      var before := Naming(done, id) + Occurrences(c, j, id);
      assert IsGroup(m, id, before);
      var more := if c.awardTypeIds[j] == id then [c] else [];
      assert Naming(done, id) + (Occurrences(c, j, id) + more) == before + more;
    }
  }

  lemma GroupingEnd(m: map<AwardTypeId, seq<ClassDefinition>>, classes: seq<ClassDefinition>, i: nat)
    requires i < |classes| && Grouping(m, classes[..i], classes[i], |classes[i].awardTypeIds|)
    ensures Groups(m, classes[..i + 1])
  {
    assert classes[..i + 1][..i] == classes[..i];
  }

  lemma {:induction false} OccurrencesContents(c: ClassDefinition, n: nat, id: AwardTypeId, x: ClassDefinition)
    requires n <= |c.awardTypeIds|
    ensures x in Occurrences(c, n, id) <==> x == c && id in c.awardTypeIds[..n]
  {
    if n > 0 {
      OccurrencesContents(c, n - 1, id, x);
      assert c.awardTypeIds[..n] == c.awardTypeIds[..n - 1] + [c.awardTypeIds[n - 1]];
    }
  }

  lemma {:induction false} NamingContents(classes: seq<ClassDefinition>, id: AwardTypeId, x: ClassDefinition)
    ensures x in Naming(classes, id) <==> x in classes && id in x.awardTypeIds
  {
    if classes != [] {
      var n := |classes| - 1;
      var c := classes[n];
      NamingContents(classes[..n], id, x);
      OccurrencesContents(c, |c.awardTypeIds|, id, x);
      assert c.awardTypeIds[..|c.awardTypeIds|] == c.awardTypeIds;
      assert classes == classes[..n] + [c];
    }
  }

  // ---------------------------------------------------------------------------------------------
  // The graph
  // ---------------------------------------------------------------------------------------------

  datatype Graph = Graph(
    classes: seq<ClassDefinition>, classById: map<ClassId, ClassDefinition>, awardById: map<AwardTypeId, AwardType>)
  {
    ghost predicate Valid() {
      forall id :: id in awardById ==> awardById[id].id == id
    }

    ghost predicate IsHigherScope(id: AwardTypeId) {
      id in awardById && awardById[id].HigherScope?
    }

    /** Award `b` feeds award `a`, and both are determined at a higher scope. */
    ghost predicate Edge(a: AwardTypeId, b: AwardTypeId) {
      IsHigherScope(a) && IsHigherScope(b) && AwardFeeder(b) in awardById[a].fedBy
    }

    /** Scale `s` is the scale of the fed class, or of a class naming the feeding award. */
    ghost predicate Contributes(f: Feeder, s: GradeScaleId) {
      match f
      case ClassFeeder(c) => c in classById && classById[c].gradeScaleId == s
      case AwardFeeder(b) => exists c :: c in classes && b in c.awardTypeIds && c.gradeScaleId == s
    }

    /** Some feeder of `a` contributes `s` without going through another higher-scope award. */
    ghost predicate FedDirectly(a: AwardTypeId, s: GradeScaleId) {
      IsHigherScope(a) && exists i :: 0 <= i < |awardById[a].fedBy| && Contributes(awardById[a].fedBy[i], s)
    }

    ghost predicate ReachesIn(a: AwardTypeId, b: AwardTypeId, n: nat)
      decreases n
    {
      if n == 0 then a == b else exists c :: Edge(a, c) && ReachesIn(c, b, n - 1)
    }

    ghost predicate Reaches(a: AwardTypeId, b: AwardTypeId) {
      exists n: nat :: ReachesIn(a, b, n)
    }

    /** Scale `s` is reachable from award `a`: the reflexive, transitive closure of `Edge`, then one direct contribution. */
    ghost predicate ScaleReachable(a: AwardTypeId, s: GradeScaleId) {
      exists b :: Reaches(a, b) && FedDirectly(b, s)
    }

    lemma ReachesSelf(a: AwardTypeId)
      ensures Reaches(a, a)
    {
      assert ReachesIn(a, a, 0);
    }

    lemma ReachesThrough(a: AwardTypeId, c: AwardTypeId, b: AwardTypeId)
      requires Edge(a, c) && Reaches(c, b)
      ensures Reaches(a, b)
    {
      var n: nat :| ReachesIn(c, b, n);
      assert ReachesIn(a, b, n + 1);
    }

    /** Every edge out of `from` leads into `into`. */
    ghost predicate Closed(from: set<AwardTypeId>, into: set<AwardTypeId>) {
      forall a, b :: a in from && Edge(a, b) ==> b in into
    }

    lemma {:induction false} ClosedContains(v: set<AwardTypeId>, a: AwardTypeId, b: AwardTypeId, n: nat)
      requires Closed(v, v) && a in v && ReachesIn(a, b, n)
      ensures b in v
      decreases n
    {
      if n > 0 {
        var c :| Edge(a, c) && ReachesIn(c, b, n - 1);
        ClosedContains(v, c, b, n - 1);
      }
    }
  }

  // ---------------------------------------------------------------------------------------------
  // The walk
  // ---------------------------------------------------------------------------------------------

  /** The read-only lookups threaded through the walk. */
  datatype Lookups = Lookups(graph: Graph, classesByAwardTypeId: map<AwardTypeId, seq<ClassDefinition>>) {
    ghost predicate Valid() {
      graph.Valid() && Groups(classesByAwardTypeId, graph.classes)
    }
  }

  /** The set shared by every level of one walk. */
  class Visiting {
    var ids: set<AwardTypeId>

    constructor ()
      ensures ids == {}
    {
      ids := {};
    }
  }

  /**
   What one call of the walk has done, having taken the visited set from `before` to `after`: the ids it
   added are reachable from `a`, leave nothing unvisited behind them, and account for exactly the scales
   returned. A revisited award adds no id, so it contributes nothing.
   */
  ghost predicate Walked(g: Graph, a: AwardTypeId, before: set<AwardTypeId>, after: set<AwardTypeId>, scales: set<GradeScaleId>) {
    && before <= after && a in after
    && (forall b :: b in after - before ==> g.Reaches(a, b))
    && g.Closed(after - before, after)
    && (forall s :: s in scales <==> exists b :: b in after - before && g.FedDirectly(b, s))
  }

  /** The walk of `a` after its first `i` feeders. */
  ghost predicate Walking(g: Graph, a: AwardType, i: nat, before: set<AwardTypeId>, now: set<AwardTypeId>, scales: set<GradeScaleId>)
    requires a.HigherScope? && i <= |a.fedBy|
  {
    && before <= now && a.id in now - before
    && (forall b :: b in now - before ==> g.Reaches(a.id, b))
    && g.Closed(now - before - {a.id}, now)
    && (forall j :: 0 <= j < i && a.fedBy[j].AwardFeeder? && g.Edge(a.id, a.fedBy[j].awardTypeId) ==> a.fedBy[j].awardTypeId in now)
    && (forall s :: s in scales <==>
          || (exists j :: 0 <= j < i && g.Contributes(a.fedBy[j], s))
          || (exists b :: b in now - before - {a.id} && g.FedDirectly(b, s)))
  }

  ghost predicate IsNode(g: Graph, a: AwardType) {
    a.HigherScope? && a.id in g.awardById && g.awardById[a.id] == a
  }

  /** What one feeder adds: the scales it contributes itself, and those of a fresh walk of the award it names. */
  ghost predicate FeederDone(
    g: Graph, f: Feeder, before: set<AwardTypeId>, after: set<AwardTypeId>, scales: set<GradeScaleId>, added: set<GradeScaleId>)
  {
    && before <= after
    && (if f.AwardFeeder? && g.IsHigherScope(f.awardTypeId)
        then f.awardTypeId in after && forall b :: b in after - before ==> g.Reaches(f.awardTypeId, b)
        else after == before)
    && g.Closed(after - before, after)
    && (forall s :: s in added <==>
          s in scales || g.Contributes(f, s) || exists b :: b in after - before && g.FedDirectly(b, s))
  }

  method ReachableGradeScaleIds(award: AwardType, l: Lookups, visiting: Visiting)
    returns (scaleIds: set<GradeScaleId>)
    requires l.Valid() && IsNode(l.graph, award)
    modifies visiting
    ensures award.id in old(visiting.ids) ==> scaleIds == {} && visiting.ids == old(visiting.ids)
    ensures Walked(l.graph, award.id, old(visiting.ids), visiting.ids, scaleIds)
    decreases l.graph.awardById.Keys - visiting.ids, 0
  {
    scaleIds := {};
    if award.id in visiting.ids { return; }
    ghost var before := visiting.ids;
    visiting.ids := visiting.ids + {award.id};
    l.graph.ReachesSelf(award.id);
    for i := 0 to |award.fedBy|
      invariant before + {award.id} <= visiting.ids
      invariant Walking(l.graph, award, i, before, visiting.ids, scaleIds)
    {
      ghost var now, scales := visiting.ids, scaleIds;
      scaleIds := AddReachableGradeScaleIds(award.fedBy[i], l, visiting, scaleIds);
      WalkStep(l.graph, award, i, before, now, scales, visiting.ids, scaleIds);
    }
    WalkDone(l.graph, award, before, visiting.ids, scaleIds);
  }

  /** One `fedBy` entry's contribution, added to the scales collected so far. */
  method AddReachableGradeScaleIds(feeder: Feeder, l: Lookups, visiting: Visiting, scaleIds: set<GradeScaleId>)
    returns (added: set<GradeScaleId>)
    requires l.Valid()
    modifies visiting
    ensures FeederDone(l.graph, feeder, old(visiting.ids), visiting.ids, scaleIds, added)
    decreases l.graph.awardById.Keys - visiting.ids, 1
  {
    added := scaleIds;
    match feeder
    case ClassFeeder(classId) =>
      if classId in l.graph.classById {
        added := added + {l.graph.classById[classId].gradeScaleId};
      }
    case AwardFeeder(awardTypeId) =>
      if awardTypeId in l.classesByAwardTypeId {
        var classes := l.classesByAwardTypeId[awardTypeId];
        for i := 0 to |classes|
          invariant forall s :: s in added <==>
            s in scaleIds || exists j :: 0 <= j < i && classes[j].gradeScaleId == s
        {
          added := added + {classes[i].gradeScaleId};
        }
      }
      NamedScales(l, awardTypeId, scaleIds, added);
      if awardTypeId in l.graph.awardById && l.graph.awardById[awardTypeId].HigherScope? {
        var fed := ReachableGradeScaleIds(l.graph.awardById[awardTypeId], l, visiting);
        added := added + fed;
      }
  }

  /** The grouped classes' scales are what the feeder contributes. */
  lemma NamedScales(l: Lookups, id: AwardTypeId, scales: set<GradeScaleId>, added: set<GradeScaleId>)
    requires l.Valid()
    requires var classes := if id in l.classesByAwardTypeId then l.classesByAwardTypeId[id] else [];
             forall s :: s in added <==> s in scales || exists j :: 0 <= j < |classes| && classes[j].gradeScaleId == s
    ensures forall s :: s in added <==> s in scales || l.graph.Contributes(AwardFeeder(id), s)
  {
    var classes := if id in l.classesByAwardTypeId then l.classesByAwardTypeId[id] else [];
    assert IsGroup(l.classesByAwardTypeId, id, Naming(l.graph.classes, id));
    forall s
      ensures (exists j :: 0 <= j < |classes| && classes[j].gradeScaleId == s) <==> l.graph.Contributes(AwardFeeder(id), s)
    {
      if j :| 0 <= j < |classes| && classes[j].gradeScaleId == s {
        NamingContents(l.graph.classes, id, classes[j]);
      }
      if l.graph.Contributes(AwardFeeder(id), s) {
        var c :| c in l.graph.classes && id in c.awardTypeIds && c.gradeScaleId == s;
        NamingContents(l.graph.classes, id, c);
        var j :| 0 <= j < |classes| && classes[j] == c;
        assert classes[j].gradeScaleId == s;
      }
    }
  }

  lemma WalkStep(
    g: Graph, a: AwardType, i: nat, before: set<AwardTypeId>, now: set<AwardTypeId>, scales: set<GradeScaleId>,
    after: set<AwardTypeId>, added: set<GradeScaleId>)
    requires IsNode(g, a) && i < |a.fedBy|
    requires Walking(g, a, i, before, now, scales)
    requires FeederDone(g, a.fedBy[i], now, after, scales, added)
    ensures Walking(g, a, i + 1, before, after, added)
  {
    hide Graph.Edge, Graph.Reaches, Graph.Contributes, Graph.FedDirectly;
    forall b | b in after - now ensures g.Reaches(a.id, b) {
      FeederEdge(g, a, i);
      g.ReachesThrough(a.id, a.fedBy[i].awardTypeId, b);
    }
    FeederEdge(g, a, i);
  }

  lemma FeederEdge(g: Graph, a: AwardType, i: nat)
    requires IsNode(g, a) && i < |a.fedBy|
    ensures a.fedBy[i].AwardFeeder? ==>
              (g.Edge(a.id, a.fedBy[i].awardTypeId) <==> g.IsHigherScope(a.fedBy[i].awardTypeId))
  {
  }

  lemma WalkDone(g: Graph, a: AwardType, before: set<AwardTypeId>, after: set<AwardTypeId>, scales: set<GradeScaleId>)
    requires IsNode(g, a) && Walking(g, a, |a.fedBy|, before, after, scales)
    ensures Walked(g, a.id, before, after, scales)
  {
  }

  /** A walk started with nothing visited returns exactly the reachable scales. */
  lemma WalkIsReachability(g: Graph, a: AwardTypeId, after: set<AwardTypeId>, scales: set<GradeScaleId>)
    requires Walked(g, a, {}, after, scales)
    ensures forall s :: s in scales <==> g.ScaleReachable(a, s)
  {
    forall b | g.Reaches(a, b) ensures b in after {
      var n: nat :| g.ReachesIn(a, b, n);
      assert after - {} == after;
      g.ClosedContains(after, a, b, n);
    }
  }

  // ---------------------------------------------------------------------------------------------
  // Reachability, one step at a time
  // ---------------------------------------------------------------------------------------------

  /** Feeder `f` brings scale `s`: its class's, that of a class naming its award, or one its higher-scope award reaches. */
  ghost predicate Brings(g: Graph, f: Feeder, s: GradeScaleId) {
    match f
    case ClassFeeder(id) => id in g.classById && g.classById[id].gradeScaleId == s
    case AwardFeeder(id) =>
      || (exists k :: k in g.classes && id in k.awardTypeIds && k.gradeScaleId == s)
      || (id in g.awardById && g.awardById[id].HigherScope? && g.ScaleReachable(id, s))
  }

  /** The scales an award reaches are exactly those its feeders bring. */
  lemma ReachableIffBrought(g: Graph, a: AwardTypeId, s: GradeScaleId)
    ensures g.ScaleReachable(a, s) <==>
            a in g.awardById && g.awardById[a].HigherScope? && exists f :: f in g.awardById[a].fedBy && Brings(g, f, s)
  {
    if g.ScaleReachable(a, s) {
      var b :| g.Reaches(a, b) && g.FedDirectly(b, s);
      var n: nat :| g.ReachesIn(a, b, n);
      if n == 0 {
        var i :| 0 <= i < |g.awardById[a].fedBy| && g.Contributes(g.awardById[a].fedBy[i], s);
        assert g.awardById[a].fedBy[i] in g.awardById[a].fedBy && Brings(g, g.awardById[a].fedBy[i], s);
      } else {
        var c :| g.Edge(a, c) && g.ReachesIn(c, b, n - 1);
        assert g.Reaches(c, b);
        assert Brings(g, AwardFeeder(c), s);
      }
    }
    if a in g.awardById && g.awardById[a].HigherScope? {
      if f :| f in g.awardById[a].fedBy && Brings(g, f, s) {
        BroughtIsReachable(g, a, f, s);
      }
    }
  }

  lemma BroughtIsReachable(g: Graph, a: AwardTypeId, f: Feeder, s: GradeScaleId)
    requires a in g.awardById && g.awardById[a].HigherScope? && f in g.awardById[a].fedBy && Brings(g, f, s)
    ensures g.ScaleReachable(a, s)
  {
    if g.Contributes(f, s) {
      var i :| 0 <= i < |g.awardById[a].fedBy| && g.awardById[a].fedBy[i] == f;
      assert g.FedDirectly(a, s);
      g.ReachesSelf(a);
    } else {
      var c := f.awardTypeId;
      var b :| g.Reaches(c, b) && g.FedDirectly(b, s);
      assert g.Edge(a, c);
      g.ReachesThrough(a, c, b);
    }
  }
}
