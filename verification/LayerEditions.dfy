/**
 Selecting one edition per layer by date, and resolving the ruleset of a show
 (ruleset-layer-edition.ts:77-91, resolve-effective-ruleset.ts:51-69).
 */
module LayerEditions {
  import opened Wrappers
  import opened LocalDates
  import opened RulesetModel
  import opened EffectiveRulesets

  predicate InForce(e: Edition, layerId: LayerId, date: LocalDate) {
    e.layerId == layerId && e.effectiveFrom.IsOnOrBefore(date)
  }

  /** Position `k` holds the layer's latest edition in force: none is later, and of equals it is the last listed. */
  ghost predicate IsLatest(editions: seq<Edition>, layerId: LayerId, date: LocalDate, k: nat) {
    && k < |editions| && InForce(editions[k], layerId, date)
    && (forall j :: 0 <= j < |editions| && InForce(editions[j], layerId, date) ==>
          editions[j].effectiveFrom.IsOnOrBefore(editions[k].effectiveFrom))
    && (forall j :: k < j < |editions| && InForce(editions[j], layerId, date) ==>
          !editions[k].effectiveFrom.IsOnOrBefore(editions[j].effectiveFrom))
  }

  ghost predicate IsLatestInForce(editions: seq<Edition>, layerId: LayerId, date: LocalDate, latest: Option<Edition>) {
    match latest
    case None => forall j :: 0 <= j < |editions| ==> !InForce(editions[j], layerId, date)
    case Some(e) => exists k: nat :: IsLatest(editions, layerId, date, k) && editions[k] == e
  }

  method LatestInForce(editions: seq<Edition>, layerId: LayerId, date: LocalDate) returns (latest: Option<Edition>)
    ensures IsLatestInForce(editions, layerId, date, latest)
  {
    latest := None;
    for i := 0 to |editions|
      invariant IsLatestInForce(editions[..i], layerId, date, latest)
    {
      var edition := editions[i];
      ghost var before := editions[..i];
      ghost var now := editions[..i + 1];
      assert now == before + [edition];
      if edition.layerId != layerId || !edition.effectiveFrom.IsOnOrBefore(date) {
        KeepLatest(before, edition, layerId, date, latest);
        continue;
      }
      if latest == None || latest.value.effectiveFrom.IsOnOrBefore(edition.effectiveFrom) {
        if latest.Some? {
          ghost var k: nat :| IsLatest(before, layerId, date, k) && before[k] == latest.value;
        }
        latest := Some(edition);
        assert IsLatest(now, layerId, date, i);
      } else {
        KeepLatest(before, edition, layerId, date, latest);
      }
    }
    assert editions[..|editions|] == editions;
  }

  lemma KeepLatest(before: seq<Edition>, e: Edition, layerId: LayerId, date: LocalDate, latest: Option<Edition>)
    requires IsLatestInForce(before, layerId, date, latest)
    requires InForce(e, layerId, date) ==> latest.Some? && !latest.value.effectiveFrom.IsOnOrBefore(e.effectiveFrom)
    ensures IsLatestInForce(before + [e], layerId, date, latest)
  {
    if latest.Some? {
      var k: nat :| IsLatest(before, layerId, date, k) && before[k] == latest.value;
      assert IsLatest(before + [e], layerId, date, k);
    }
  }

  /** The description leaves one answer. */
  lemma LatestUnique(editions: seq<Edition>, layerId: LayerId, date: LocalDate, a: Option<Edition>, b: Option<Edition>)
    requires IsLatestInForce(editions, layerId, date, a) && IsLatestInForce(editions, layerId, date, b)
    ensures a == b
  {
    hide InForce;
    if a.Some? && b.Some? {
      var i: nat :| IsLatest(editions, layerId, date, i) && editions[i] == a.value;
      var j: nat :| IsLatest(editions, layerId, date, j) && editions[j] == b.value;
      assert i == j;
    }
  }

  // ---------------------------------------------------------------------------------------------
  // One edition per layer
  // ---------------------------------------------------------------------------------------------

  datatype ShowRulesetError = NoEditionInForce(layerId: LayerId) | InvalidContent(error: ResolveError)

  /** The editions chosen for the layers, in layer order, or the first layer with none. */
  ghost predicate IsSelection(editions: seq<Edition>, layers: seq<LayerId>, date: LocalDate, r: Result<seq<Edition>, LayerId>) {
    match r
    case Success(chosen) =>
      && |chosen| == |layers|
      && forall i :: 0 <= i < |layers| ==> IsLatestInForce(editions, layers[i], date, Some(chosen[i]))
    case Failure(layerId) =>
      exists i :: && 0 <= i < |layers| && layers[i] == layerId
                  && IsLatestInForce(editions, layerId, date, None)
                  && forall j :: 0 <= j < i ==> !IsLatestInForce(editions, layers[j], date, None)
  }

  ghost function ShowOutcome(id: string, selection: Result<seq<Edition>, LayerId>, date: LocalDate): Result<EffectiveRuleset, ShowRulesetError> {
    match selection
    case Failure(layerId) => Failure(NoEditionInForce(layerId))
    case Success(chosen) =>
      match Resolution(id, chosen, date)
      case Failure(e) => Failure(InvalidContent(e))
      case Success(s) => Success(s)
  }

  method ResolveEffectiveRuleset(id: string, layers: seq<LayerId>, editions: seq<Edition>, showDate: LocalDate)
    returns (r: Result<EffectiveRuleset, ShowRulesetError>)
    ensures exists selection :: IsSelection(editions, layers, showDate, selection) && r == ShowOutcome(id, selection, showDate)
    ensures IsShowAnswer(id, layers, editions, showDate, r)
  {
    hide IsLatestInForce, Resolution, IsShowAnswer;
    var chosen: seq<Edition> := [];
    for i := 0 to |layers|
      invariant |chosen| == i
      invariant forall j :: 0 <= j < i ==> IsLatestInForce(editions, layers[j], showDate, Some(chosen[j]))
    {
      var edition := LatestInForce(editions, layers[i], showDate);
      if edition == None {
        forall j | 0 <= j < i ensures !IsLatestInForce(editions, layers[j], showDate, None) {
          if IsLatestInForce(editions, layers[j], showDate, None) {
            LatestUnique(editions, layers[j], showDate, None, Some(chosen[j]));
          }
        }
        assert IsSelection(editions, layers, showDate, Failure(layers[i]));
        OutcomeIsAnswer(id, layers, editions, showDate, Failure(layers[i]));
        return Failure(NoEditionInForce(layers[i]));
      }
      chosen := chosen + [edition.value];
    }
    var resolved := Resolve(id, chosen, showDate);
    assert IsSelection(editions, layers, showDate, Success(chosen));
    OutcomeIsAnswer(id, layers, editions, showDate, Success(chosen));
    match resolved
    case Failure(e) => r := Failure(InvalidContent(e));
    case Success(s) => r := Success(s);
  }

  /**
   The answer for a show: the layered collections of the editions in force, each layer's latest, when they make a
   well-formed snapshot; else a broken reference of theirs; or the first layer with no edition in force.
   */
  ghost predicate IsShowAnswer(
    id: string, layers: seq<LayerId>, editions: seq<Edition>, showDate: LocalDate, r: Result<EffectiveRuleset, ShowRulesetError>)
  {
    match r
    case Success(s) =>
      exists chosen :: IsSelection(editions, layers, showDate, Success(chosen)) && ComesFrom(s, id, chosen, showDate) && Resolved(s.content)
    case Failure(NoEditionInForce(layerId)) => IsSelection(editions, layers, showDate, Failure(layerId))
    case Failure(InvalidContent(e)) =>
      exists chosen, c :: && IsSelection(editions, layers, showDate, Success(chosen)) && LayersOf(chosen, c) && UniqueContent(c)
                          && !WellFormed(c) && IsViolation(c, e)
  }

  lemma OutcomeIsAnswer(id: string, layers: seq<LayerId>, editions: seq<Edition>, showDate: LocalDate, selection: Result<seq<Edition>, LayerId>)
    requires IsSelection(editions, layers, showDate, selection)
    ensures IsShowAnswer(id, layers, editions, showDate, ShowOutcome(id, selection, showDate))
  {
    hide IsSelection, LayersOf, WellFormed, IsViolation, UniqueContent, Compose, Resolution, Resolved;
    if selection.Success? { ResolveIffWellFormed(id, selection.value, showDate); }
  }

  // ---------------------------------------------------------------------------------------------
  // Between two dates nothing changes unless an edition takes effect
  // ---------------------------------------------------------------------------------------------

  /** No edition of a listed layer takes effect after `early` and up to `late`. */
  ghost predicate NoChangeBetween(editions: seq<Edition>, layers: seq<LayerId>, early: LocalDate, late: LocalDate) {
    forall e :: e in editions && e.layerId in layers ==>
      !(!e.effectiveFrom.IsOnOrBefore(early) && e.effectiveFrom.IsOnOrBefore(late))
  }

  lemma SameInForce(editions: seq<Edition>, layers: seq<LayerId>, layerId: LayerId, early: LocalDate, late: LocalDate, latest: Option<Edition>)
    requires early.IsOnOrBefore(late) && NoChangeBetween(editions, layers, early, late) && layerId in layers
    ensures IsLatestInForce(editions, layerId, early, latest) <==> IsLatestInForce(editions, layerId, late, latest)
  {
    assert forall i :: 0 <= i < |editions| ==> (InForce(editions[i], layerId, early) <==> InForce(editions[i], layerId, late));
    hide InForce;
    forall k: nat ensures IsLatest(editions, layerId, early, k) <==> IsLatest(editions, layerId, late, k) {
    }
  }

  lemma SelectionUnique(editions: seq<Edition>, layers: seq<LayerId>, date: LocalDate,
                        a: Result<seq<Edition>, LayerId>, b: Result<seq<Edition>, LayerId>)
    requires IsSelection(editions, layers, date, a) && IsSelection(editions, layers, date, b)
    ensures a == b
  {
    hide IsLatestInForce;
    match (a, b)
    case (Success(x), Success(y)) =>
      forall i | 0 <= i < |layers| ensures x[i] == y[i] {
        LatestUnique(editions, layers[i], date, Some(x[i]), Some(y[i]));
      }
      assert x == y;
    case (Success(x), Failure(l)) =>
      var i :| 0 <= i < |layers| && layers[i] == l && IsLatestInForce(editions, l, date, None);
      LatestUnique(editions, l, date, None, Some(x[i]));
    case (Failure(l), Success(y)) =>
      var i :| 0 <= i < |layers| && layers[i] == l && IsLatestInForce(editions, l, date, None);
      LatestUnique(editions, l, date, None, Some(y[i]));
    case (Failure(l), Failure(m)) =>
  }

  lemma SelectionMoves(editions: seq<Edition>, layers: seq<LayerId>, early: LocalDate, late: LocalDate, a: Result<seq<Edition>, LayerId>)
    requires early.IsOnOrBefore(late) && NoChangeBetween(editions, layers, early, late)
    requires IsSelection(editions, layers, early, a)
    ensures IsSelection(editions, layers, late, a)
  {
    hide IsLatestInForce, NoChangeBetween;
    forall i, latest | 0 <= i < |layers|
      ensures IsLatestInForce(editions, layers[i], early, latest) <==> IsLatestInForce(editions, layers[i], late, latest)
    {
      SameInForce(editions, layers, layers[i], early, late, latest);
    }
  }

  /**
   Two show dates with no listed layer's edition taking effect in between resolve to the same collections
   from the same source editions, or fail alike.
   */
  lemma SameRulesBetweenEditions(id: string, editions: seq<Edition>, layers: seq<LayerId>, early: LocalDate, late: LocalDate,
                                 a: Result<seq<Edition>, LayerId>, b: Result<seq<Edition>, LayerId>)
    requires early.IsOnOrBefore(late) && NoChangeBetween(editions, layers, early, late)
    requires IsSelection(editions, layers, early, a) && IsSelection(editions, layers, late, b)
    ensures match (ShowOutcome(id, a, early), ShowOutcome(id, b, late))
            case (Success(s), Success(t)) => s.content == t.content && s.sourceEditions == t.sourceEditions
            case (Failure(e), Failure(f)) => e == f
            case _ => false
  {
    SelectionMoves(editions, layers, early, late, a);
    SelectionUnique(editions, layers, late, a, b);
  }
}
