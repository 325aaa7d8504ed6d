/**
 One dispatcher polling the outbox (pg-polling-dispatcher.ts:126-223, 260-293), and the draining of the table
 by repeated polls.
 */
module PollingDispatcher {
  import opened Wrappers
  import opened Outbox
  import opened DispatchProtocol

  /** How one row's dispatch ends: delivered; failed with nothing applied; or committed but reported as failed. */
  datatype Outcome =
    | Delivers
    | Fails(recorded: bool)
    | Unconfirmed(recorded: bool)

  datatype Processed = Dispatched | NothingPending | DispatchFailed(row: Seq, attempts: Option<nat>)

  datatype PollResult = Polled(dispatched: nat, quarantined: nat) | PollFailed(row: Seq, attempts: Option<nat>)

  /** What becomes of the table. */
  function Settled(rows: Table, s: Seq, outcome: Outcome): Table
    requires s in rows
  {
    match outcome
    case Delivers => MarkDispatched(rows, s)
    case Fails(recorded) => if recorded then RecordFailure(rows, s) else rows
    case Unconfirmed(recorded) => if recorded then RecordFailure(MarkDispatched(rows, s), s) else MarkDispatched(rows, s)
  }

  /** The lowest eligible row. */
  ghost predicate IsNext(rows: Table, max: int, s: Seq) {
    Eligible(rows, max, s) && forall t :: Eligible(rows, max, t) ==> s <= t
  }

  ghost predicate NoneEligible(rows: Table, max: int) {
    forall s :: s in rows ==> !Eligible(rows, max, s)
  }

  lemma {:induction false} LeastExists(all: set<Seq>, s: Seq)
    requires s in all
    ensures exists least :: least in all && forall t :: t in all ==> least <= t
    decreases s
  {
    if t :| t in all && t < s { LeastExists(all, t); }
  }

  class Dispatcher {
    const maxAttempts: int
    /** How the k-th call to the handler, made for the given row, ends. */
    const outcome: (Seq, nat) -> Outcome
    var rows: Table
    /** The rows the handler was called with, in order. */
    var calls: seq<Seq>

    constructor (maxAttempts: int, outcome: (Seq, nat) -> Outcome, rows: Table)
      ensures this.maxAttempts == maxAttempts && this.outcome == outcome && this.rows == rows && calls == []
    {
      this.maxAttempts, this.outcome := maxAttempts, outcome;
      this.rows, calls := rows, [];
    }

    /** The `SELECT … ORDER BY seq LIMIT 1`. */
    method SelectNextRow() returns (row: Option<Seq>)
      ensures row.None? ==> NoneEligible(rows, maxAttempts)
      ensures row.Some? ==> IsNext(rows, maxAttempts, row.value)
    {
      var eligible := set s | s in rows && Eligible(rows, maxAttempts, s);
      if eligible == {} {
        row := None;
        assert forall s :: Eligible(rows, maxAttempts, s) ==> s in eligible;
      } else {
        ghost var some :| some in eligible;
        LeastExists(eligible, some);
        var s :| s in eligible && forall t :: t in eligible ==> s <= t;
        row := Some(s);
        assert forall t :: Eligible(rows, maxAttempts, t) ==> t in eligible;
      }
    }

    method CountQuarantinedRows() returns (count: nat)
      ensures count == |set s | s in rows && !rows[s].dispatched && rows[s].attempts >= maxAttempts|
    {
      var quarantined := set s | s in rows && !rows[s].dispatched && rows[s].attempts >= maxAttempts;
      count := |quarantined|;
    }

    method ProcessOne() returns (processed: Processed)
      modifies this`rows, this`calls
      ensures processed.NothingPending? <==> NoneEligible(old(rows), maxAttempts)
      ensures processed.NothingPending? ==> rows == old(rows) && calls == old(calls)
      ensures !processed.NothingPending? ==>
                && |calls| == |old(calls)| + 1 && calls[..|old(calls)|] == old(calls)
                && var s := calls[|old(calls)|];
                && IsNext(old(rows), maxAttempts, s)
                && rows == Settled(old(rows), s, outcome(s, |old(calls)|))
                && (processed.Dispatched? <==> outcome(s, |old(calls)|).Delivers?)
                && (processed.DispatchFailed? ==> processed == FailureOf(rows, s, outcome(s, |old(calls)|)))
    {
      var selected := SelectNextRow();
      match selected
      case None => return NothingPending;
      case Some(s) =>
        var ending := outcome(s, |calls|);
        calls := calls + [s];
        match ending
        case Delivers =>
          rows := MarkDispatched(rows, s);
          return Dispatched;
        case Fails(recorded) =>
          var attempts := RecordDispatchFailure(s, recorded);
          return DispatchFailed(s, attempts);
        case Unconfirmed(recorded) =>
          rows := MarkDispatched(rows, s);
          var attempts := RecordDispatchFailure(s, recorded);
          return DispatchFailed(s, attempts);
    }

    method RecordDispatchFailure(s: Seq, works: bool) returns (attempts: Option<nat>)
      requires s in rows
      modifies this`rows
      ensures rows == if works then RecordFailure(old(rows), s) else old(rows)
      ensures attempts == if works then Some(old(rows)[s].attempts + 1) else None
    {
      if !works { return None; }
      rows := RecordFailure(rows, s);
      attempts := Some(rows[s].attempts);
    }

    method Poll(batchSize: int) returns (result: PollResult)
      modifies this`rows, this`calls
      ensures old(calls) <= calls
      ensures PollEffect(maxAttempts, outcome, batchSize, old(rows), |old(calls)|, calls[|old(calls)|..], rows, result)
    {
      var dispatched := 0;
      ghost var before, first := rows, |calls|;
      assert DispatchedAll(before, []) == before;
      for i := 0 to if batchSize < 0 then 0 else batchSize
        invariant dispatched == i && old(calls) <= calls && |calls| == first + i
        invariant InOrder(maxAttempts, before, calls[first..]) && AllDelivered(outcome, first, calls[first..])
        invariant rows == DispatchedAll(before, calls[first..])
      {
        ghost var was, done := rows, calls[first..];
        var processed := ProcessOne();
        if processed.NothingPending? {
          assert calls[first..] == done;
          break;
        }
        ghost var s := calls[first + i];
        assert calls[first..] == done + [s];
        NextInOrder(maxAttempts, before, done, s);
        hide InOrder, DispatchedAll, IsNext, AllDelivered, NoneEligible;
        if processed.DispatchFailed? {
          FailureEffect(maxAttempts, outcome, batchSize, before, first, done, s);
          hide PollEffect;
          return PollFailed(processed.row, processed.attempts);
        }
        MarkedIsDispatched(before, done, s);
        OneMoreDelivered(outcome, first, done, s);
        dispatched := dispatched + 1;
      }
      var quarantined := CountQuarantinedRows();
      result := Polled(dispatched, quarantined);
    }
  }

  function FailureOf(rows: Table, s: Seq, ending: Outcome): Processed
    requires s in rows && !ending.Delivers?
  {
    DispatchFailed(s, if ending.recorded then Some(rows[s].attempts) else None)
  }

  // ---------------------------------------------------------------------------------------------
  // One poll
  // ---------------------------------------------------------------------------------------------

  /** Increasing `seq`, only eligible rows, and no eligible row passed over. */
  ghost predicate InOrder(max: int, before: Table, called: seq<Seq>) {
    && (forall i, j :: 0 <= i < j < |called| ==> called[i] < called[j])
    && (forall i :: 0 <= i < |called| ==> Eligible(before, max, called[i]))
    && (forall s, i :: 0 <= i < |called| && Eligible(before, max, s) && s < called[i] ==> s in called)
  }

  ghost predicate AllDelivered(outcome: (Seq, nat) -> Outcome, first: nat, called: seq<Seq>) {
    forall i :: 0 <= i < |called| ==> outcome(called[i], first + i) == Delivers
  }

  ghost function DispatchedAll(rows: Table, done: seq<Seq>): Table {
    map s | s in rows :: if s in done then rows[s].(dispatched := true) else rows[s]
  }

  /**
   What a poll does: the handler is called for the lowest eligible rows in increasing order, up to the batch
   size or the first failure. Every row delivered is dispatched, a failure is recorded, and nothing else changes.
   */
  ghost predicate PollEffect(
    max: int, outcome: (Seq, nat) -> Outcome, batchSize: int,
    before: Table, first: nat, called: seq<Seq>, after: Table, result: PollResult)
  {
    && InOrder(max, before, called)
    && |called| <= (if batchSize < 0 then 0 else batchSize)
    && match result
       case Polled(dispatched, quarantined) =>
         && AllDelivered(outcome, first, called) && dispatched == |called|
         && after == DispatchedAll(before, called)
         && (dispatched < batchSize ==> NoneEligible(after, max))
         && quarantined == |set s | s in after && !after[s].dispatched && after[s].attempts >= max|
       case PollFailed(row, attempts) =>
         && |called| > 0
         && var n := |called| - 1;
         && var ending := outcome(called[n], first + n);
         && AllDelivered(outcome, first, called[..n]) && !ending.Delivers? && row == called[n] && row in before
         && after == DispatchedAll(before, called[..n])[row := Row(ending.Unconfirmed?, before[row].attempts + if ending.recorded then 1 else 0)]
         && attempts == (if ending.recorded then Some(before[row].attempts + 1) else None)
  }

  lemma NextInOrder(max: int, before: Table, done: seq<Seq>, s: Seq)
    requires InOrder(max, before, done) && IsNext(DispatchedAll(before, done), max, s)
    ensures InOrder(max, before, done + [s]) && s !in done
  {
    var now := DispatchedAll(before, done);
    assert forall t :: Eligible(now, max, t) <==> Eligible(before, max, t) && t !in done;
    hide DispatchedAll;
    assert Eligible(before, max, s) && s !in done;
  }

  lemma FailureEffect(
    max: int, outcome: (Seq, nat) -> Outcome, batchSize: int, before: Table, first: nat, done: seq<Seq>, s: Seq)
    requires InOrder(max, before, done + [s]) && AllDelivered(outcome, first, done) && |done| < batchSize && s !in done
    requires s in before && !outcome(s, first + |done|).Delivers?
    ensures s in DispatchedAll(before, done)
    ensures var ending := outcome(s, first + |done|);
            var after := Settled(DispatchedAll(before, done), s, ending);
            PollEffect(max, outcome, batchSize, before, first, done + [s], after,
              PollFailed(s, if ending.recorded then Some(after[s].attempts) else None))
  {
    var called := done + [s];
    assert called[..|called| - 1] == done && called[|called| - 1] == s;
    assert DispatchedAll(before, done)[s] == before[s] && !before[s].dispatched;
    hide InOrder, AllDelivered;
    SettledIs(DispatchedAll(before, done), s, outcome(s, first + |done|));
  }

  /** What settling one row comes to. */
  lemma SettledIs(rows: Table, s: Seq, ending: Outcome)
    requires s in rows && !rows[s].dispatched
    ensures Settled(rows, s, ending) ==
            rows[s := Row(!ending.Fails?, rows[s].attempts + if !ending.Delivers? && ending.recorded then 1 else 0)]
  {
    assert rows[s := rows[s]] == rows;
  }

  ghost function DispatchedRows(rows: Table): set<Seq> { set s | s in rows && rows[s].dispatched }
  ghost function EligibleRows(rows: Table, max: int): set<Seq> { set s | s in rows && Eligible(rows, max, s) }
  ghost function QuarantinedRows(rows: Table, max: int): set<Seq> { set s | s in rows && !rows[s].dispatched && rows[s].attempts >= max }

  /** The rows of any table split into dispatched, eligible and quarantined ones. */
  lemma RowsSplit(rows: Table, max: int)
    ensures DispatchedRows(rows) !! EligibleRows(rows, max) && DispatchedRows(rows) !! QuarantinedRows(rows, max)
    ensures EligibleRows(rows, max) !! QuarantinedRows(rows, max)
    ensures DispatchedRows(rows) + EligibleRows(rows, max) + QuarantinedRows(rows, max) == rows.Keys
    ensures |DispatchedRows(rows)| + |EligibleRows(rows, max)| + |QuarantinedRows(rows, max)| == |rows|
  {
    assert DispatchedRows(rows) + EligibleRows(rows, max) + QuarantinedRows(rows, max) == rows.Keys;
  }

  /** After a completed poll: the rows dispatched in it, those left for a later one, and the quarantined ones reported. */
  lemma PollCounts(
    max: int, outcome: (Seq, nat) -> Outcome, batchSize: int,
    before: Table, first: nat, called: seq<Seq>, after: Table, dispatched: nat, quarantined: nat)
    requires PollEffect(max, outcome, batchSize, before, first, called, after, Polled(dispatched, quarantined))
    ensures quarantined == |QuarantinedRows(after, max)|
    ensures |DispatchedRows(after)| == |DispatchedRows(before)| + dispatched
    ensures |DispatchedRows(after)| + |EligibleRows(after, max)| + quarantined == |after|
  {
    RowsSplit(after, max);
    NewlyDispatched(max, before, called);
    assert QuarantinedRows(after, max) == set s | s in after && !after[s].dispatched && after[s].attempts >= max;
    hide InOrder, DispatchedAll, AllDelivered, NoneEligible, DispatchedRows, EligibleRows;
  }

  lemma NewlyDispatched(max: int, before: Table, called: seq<Seq>)
    requires InOrder(max, before, called)
    ensures |DispatchedRows(DispatchedAll(before, called))| == |DispatchedRows(before)| + |called|
  {
    var newly := set i: nat | i < |called| :: called[i];
    DispatchedThen(max, before, called, newly);
    DistinctCount(called);
    hide InOrder, DispatchedRows, DispatchedAll;
    CountOfBoth(DispatchedRows(before), newly);
  }

  lemma DispatchedThen(max: int, before: Table, called: seq<Seq>, newly: set<Seq>)
    requires InOrder(max, before, called) && newly == set i: nat | i < |called| :: called[i]
    ensures DispatchedRows(DispatchedAll(before, called)) == DispatchedRows(before) + newly && DispatchedRows(before) !! newly
  {
    assert forall i :: 0 <= i < |called| ==> called[i] in newly && called[i] in before && !before[called[i]].dispatched;
    assert forall s :: s in newly <==> s in called;
    hide InOrder;
  }

  lemma CountOfBoth(a: set<Seq>, b: set<Seq>)
    requires a !! b
    ensures |a + b| == |a| + |b|
  {
  }

  lemma {:induction false} DistinctCount(called: seq<Seq>)
    requires forall i, j :: 0 <= i < j < |called| ==> called[i] < called[j]
    ensures |set i: nat | i < |called| :: called[i]| == |called|
  {
    if called != [] {
      var n := |called| - 1;
      DistinctCount(called[..n]);
      assert (set i: nat | i < |called| :: called[i]) == (set i: nat | i < n :: called[..n][i]) + {called[n]};
    }
  }

  lemma OneMoreDelivered(outcome: (Seq, nat) -> Outcome, first: nat, done: seq<Seq>, s: Seq)
    requires AllDelivered(outcome, first, done) && outcome(s, first + |done|).Delivers?
    ensures AllDelivered(outcome, first, done + [s])
  {
  }

  lemma MarkedIsDispatched(before: Table, done: seq<Seq>, s: Seq)
    requires s in before
    ensures MarkDispatched(DispatchedAll(before, done), s) == DispatchedAll(before, done + [s])
  {
  }

  // ---------------------------------------------------------------------------------------------
  // Repeated polls drain the table
  // ---------------------------------------------------------------------------------------------

  /** Attempts left to a row. */
  function Left(row: Row, max: int): nat {
    if row.dispatched || row.attempts >= max then 0 else max - row.attempts
  }

  ghost function Remaining(rows: Table, max: int): nat {
    if rows == map[] then 0 else
    var s :| s in rows;
    Left(rows[s], max) + Remaining(rows - {s}, max)
  }

  lemma {:induction false} RemainingAt(rows: Table, max: int, s: Seq)
    requires s in rows
    ensures Remaining(rows, max) == Left(rows[s], max) + Remaining(rows - {s}, max)
    decreases rows
  {
    var t :| t in rows && Remaining(rows, max) == Left(rows[t], max) + Remaining(rows - {t}, max);
    if t != s {
      RemainingAt(rows - {t}, max, s);
      RemainingAt(rows - {s}, max, t);
      assert rows - {t} - {s} == rows - {s} - {t};
    }
  }

  lemma {:induction false} NoneRemaining(rows: Table, max: int)
    ensures Remaining(rows, max) == 0 <==> NoneEligible(rows, max)
    decreases rows
  {
    if rows != map[] {
      var s :| s in rows;
      RemainingAt(rows, max, s);
      NoneRemaining(rows - {s}, max);
      assert forall t :: t in rows && t != s ==> t in rows - {s};
    }
  }

  /** Replacing one row changes the sum by the change of that row. */
  lemma RemainingOfChanged(rows: Table, max: int, s: Seq, row: Row)
    requires s in rows
    ensures Remaining(rows[s := row], max) + Left(rows[s], max) == Remaining(rows, max) + Left(row, max)
  {
    RemainingAt(rows, max, s);
    RemainingAt(rows[s := row], max, s);
    assert rows[s := row] - {s} == rows - {s};
  }

  /** The sum falls at every selection, as long as a failure gets recorded. */
  lemma SelectionLowers(rows: Table, max: int, s: Seq, ending: Outcome)
    requires Eligible(rows, max, s) && ending != Fails(false)
    ensures Remaining(Settled(rows, s, ending), max) < Remaining(rows, max)
  {
    var after := Settled(rows, s, ending);
    assert after == rows[s := after[s]];
    RemainingOfChanged(rows, max, s, after[s]);
  }

  lemma {:induction false} DeliveriesLower(max: int, before: Table, called: seq<Seq>)
    requires InOrder(max, before, called)
    ensures Remaining(DispatchedAll(before, called), max) + |called| <= Remaining(before, max)
    decreases |called|
  {
    if called == [] {
      assert DispatchedAll(before, called) == before;
    } else {
      var n := |called| - 1;
      var done, s := called[..n], called[n];
      assert called == done + [s];
      PrefixInOrder(max, before, called, n);
      DeliveriesLower(max, before, done);
      StillEligible(max, before, called, n);
      MarkedIsDispatched(before, done, s);
      hide InOrder, DispatchedAll, Eligible;
      SelectionLowers(DispatchedAll(before, done), max, s, Delivers);
    }
  }

  lemma PrefixInOrder(max: int, before: Table, called: seq<Seq>, n: nat)
    requires InOrder(max, before, called) && n <= |called|
    ensures InOrder(max, before, called[..n])
  {
    var done := called[..n];
    forall s, i | 0 <= i < n && Eligible(before, max, s) && s < called[i] ensures s in done {
      assert s in called;
      var j :| 0 <= j < |called| && called[j] == s;
      assert j < i && done[j] == s;
    }
  }

  lemma StillEligible(max: int, before: Table, called: seq<Seq>, n: nat)
    requires InOrder(max, before, called) && n < |called|
    ensures Eligible(DispatchedAll(before, called[..n]), max, called[n])
  {
  }

  lemma PollLowers(
    max: int, outcome: (Seq, nat) -> Outcome, batchSize: int,
    before: Table, first: nat, called: seq<Seq>, after: Table, result: PollResult)
    requires PollEffect(max, outcome, batchSize, before, first, called, after, result) && Settles(outcome) && batchSize > 0
    ensures Remaining(after, max) + |called| <= Remaining(before, max)
    ensures called == [] ==> after == before && NoneEligible(before, max)
  {
    if result.Polled? {
      hide InOrder, Settled, AllDelivered;
      DeliveriesLower(max, before, called);
      if called == [] { assert DispatchedAll(before, called) == before; }
    } else {
      var n := |called| - 1;
      hide AllDelivered, Settled, DispatchedAll, InOrder, Eligible;
      PrefixInOrder(max, before, called, n);
      StillEligible(max, before, called, n);
      FailedIs(max, before, called, outcome(called[n], first + n));
      DeliveriesLower(max, before, called[..n]);
      SelectionLowers(DispatchedAll(before, called[..n]), max, called[n], outcome(called[n], first + n));
    }
  }

  lemma FailedIs(max: int, before: Table, called: seq<Seq>, ending: Outcome)
    requires InOrder(max, before, called) && called != [] && !ending.Delivers?
    ensures var n := |called| - 1;
            var s, now := called[n], DispatchedAll(before, called[..n]);
            s in before && s in now
            && Settled(now, s, ending) == now[s := Row(ending.Unconfirmed?, before[s].attempts + if ending.recorded then 1 else 0)]
  {
    var n := |called| - 1;
    StillEligible(max, before, called, n);
    assert called[n] !in called[..n];
    SettledIs(DispatchedAll(before, called[..n]), called[n], ending);
    hide InOrder;
  }

  /** Every call ends in a delivery or in a recorded failure. */
  ghost predicate Settles(outcome: (Seq, nat) -> Outcome) {
    forall s, k :: outcome(s, k) != Fails(false)
  }

  datatype Cycle = Cycle(first: nat, called: seq<Seq>, result: PollResult)

  /** Polls one after another, with nothing inserted in between: cycle `i` takes `tables[i]` to `tables[i + 1]`. */
  ghost predicate Polls(max: int, outcome: (Seq, nat) -> Outcome, batchSize: int, tables: seq<Table>, cycles: seq<Cycle>) {
    && |tables| == |cycles| + 1
    && forall i :: 0 <= i < |cycles| ==>
         PollEffect(max, outcome, batchSize, tables[i], cycles[i].first, cycles[i].called, tables[i + 1], cycles[i].result)
  }

  /** After as many polls as attempts were left, every row is dispatched or quarantined. */
  lemma {:induction false} PollsDrain(
    max: int, outcome: (Seq, nat) -> Outcome, batchSize: int, tables: seq<Table>, cycles: seq<Cycle>)
    requires Polls(max, outcome, batchSize, tables, cycles) && Settles(outcome) && batchSize > 0
    requires |cycles| >= Remaining(tables[0], max)
    ensures NoneEligible(tables[|cycles|], max) && tables[|cycles|].Keys == tables[0].Keys
    decreases |cycles|
  {
    if cycles == [] {
      NoneRemaining(tables[0], max);
    } else {
      var c := cycles[0];
      PollLowers(max, outcome, batchSize, tables[0], c.first, c.called, tables[1], c.result);
      PollKeepsKeys(max, outcome, batchSize, tables[0], c.first, c.called, tables[1], c.result);
      hide PollEffect, NoneEligible;
      NoneRemaining(tables[0], max);
      PollsDrain(max, outcome, batchSize, tables[1..], cycles[1..]);
    }
  }

  lemma PollKeepsKeys(
    max: int, outcome: (Seq, nat) -> Outcome, batchSize: int,
    before: Table, first: nat, called: seq<Seq>, after: Table, result: PollResult)
    requires PollEffect(max, outcome, batchSize, before, first, called, after, result)
    ensures after.Keys == before.Keys
  {
  }

  /** A poll of a drained table calls no handler, and counts exactly the undispatched rows as quarantined. */
  lemma DrainedPoll(
    max: int, outcome: (Seq, nat) -> Outcome, batchSize: int,
    before: Table, first: nat, called: seq<Seq>, after: Table, result: PollResult)
    requires PollEffect(max, outcome, batchSize, before, first, called, after, result) && NoneEligible(before, max)
    ensures called == [] && after == before
    ensures result == Polled(0, |set s | s in before && !before[s].dispatched|)
  {
    assert |called| > 0 ==> Eligible(before, max, called[0]);
    assert DispatchedAll(before, []) == before;
    assert (set s | s in before && !before[s].dispatched && before[s].attempts >= max) == (set s | s in before && !before[s].dispatched);
    hide InOrder, DispatchedAll, AllDelivered;
  }

  /** With one dispatcher no row's attempts pass the maximum. */
  ghost predicate WithinMax(rows: Table, max: int) {
    forall s :: s in rows ==> rows[s].attempts == 0 || rows[s].attempts <= max
  }

  lemma PollKeepsWithinMax(
    max: int, outcome: (Seq, nat) -> Outcome, batchSize: int,
    before: Table, first: nat, called: seq<Seq>, after: Table, result: PollResult)
    requires PollEffect(max, outcome, batchSize, before, first, called, after, result) && WithinMax(before, max)
    ensures WithinMax(after, max)
  {
    if result.PollFailed? {
      StillEligible(max, before, called, |called| - 1);
    }
    hide InOrder, AllDelivered;
  }

  // ---------------------------------------------------------------------------------------------
  // One dispatcher is a run of the protocol
  // ---------------------------------------------------------------------------------------------

  /** The steps a worker takes for one row. */
  function StepsOf(w: Worker, s: Seq, ending: Outcome, live: bool): seq<Step> {
    match ending
    case Delivers => [Select(w, s), HandlerReturns(w), Commit(w)]
    case Fails(recorded) => [Select(w, s), HandlerThrows(w), if recorded then Record(w) else RecordFails(w)]
    case Unconfirmed(recorded) =>
      [Select(w, s), HandlerReturns(w), CommitUnconfirmed(w, live || recorded), if recorded then Record(w) else RecordFails(w)]
  }

  /** Worker `w` can select row `s` and is alone at it. */
  predicate ReadyFor(max: int, st: State, w: Worker, s: Seq) {
    w in st.phases && st.phases[w] == Idle && st.locks == map[] && Eligible(st.rows, max, s)
  }

  /** Inside the transaction, or after it, with the row as given. */
  function During(st: State, w: Worker, s: Seq, row: Row, phase: Phase): State {
    State(st.rows[s := row], if phase.Holds(s) then map[s := HeldBy(w)] else map[], st.phases[w := phase])
  }

  lemma DuringSteps(max: int, st: State, w: Worker, s: Seq)
    requires ReadyFor(max, st, w, s)
    ensures CanStep(max, st, Select(w, s)) && Next(max, st, Select(w, s)) == During(st, w, s, st.rows[s], Handling(s, true))
    ensures var st1 := During(st, w, s, st.rows[s], Handling(s, true));
            && CanStep(max, st1, HandlerReturns(w)) && CanStep(max, st1, HandlerThrows(w))
            && Next(max, st1, HandlerReturns(w)) == During(st, w, s, st.rows[s], Handled(s, true))
            && Next(max, st1, HandlerThrows(w)) == During(st, w, s, st.rows[s], Recording(s, true))
  {
    assert st.rows[s := st.rows[s]] == st.rows;
    assert map[s := HeldBy(w)] - {s} == map[];
  }

  lemma CommitSteps(max: int, st: State, w: Worker, s: Seq, live: bool)
    requires ReadyFor(max, st, w, s)
    ensures var st1 := During(st, w, s, st.rows[s], Handled(s, true));
            && CanStep(max, st1, Commit(w)) && CanStep(max, st1, CommitUnconfirmed(w, live))
            && Next(max, st1, Commit(w)) == During(st, w, s, Row(true, st.rows[s].attempts), Idle)
            && Next(max, st1, CommitUnconfirmed(w, live)) == During(st, w, s, Row(true, st.rows[s].attempts), Recording(s, live))
  {
    assert map[s := HeldBy(w)] - {s} == map[];
  }

  lemma RecordSteps(max: int, st: State, w: Worker, s: Seq, live: bool, row: Row)
    requires ReadyFor(max, st, w, s)
    ensures var st1 := During(st, w, s, row, Recording(s, live));
            && CanStep(max, st1, RecordFails(w)) && Next(max, st1, RecordFails(w)) == During(st, w, s, row, Idle)
            && (live ==> CanStep(max, st1, Record(w)))
            && (live ==> Next(max, st1, Record(w)) == During(st, w, s, row.(attempts := row.attempts + 1), Idle))
  {
  }

  lemma BackToIdle(max: int, st: State, w: Worker, s: Seq, ending: Outcome)
    requires ReadyFor(max, st, w, s)
    ensures During(st, w, s, Settled(st.rows, s, ending)[s], Idle) == st.(rows := Settled(st.rows, s, ending))
  {
    assert st.phases[w := Idle] == st.phases;
    assert st.rows[s := st.rows[s]] == st.rows;
  }

  /** The run goes on with these steps, and ends in `after`. */
  predicate Extends(max: int, workers: set<Worker>, run: seq<Step>, steps: seq<Step>, after: State) {
    Possible(max, workers, run + steps) && Reached(max, workers, run + steps) == after
  }

  lemma HandlingIsARun(max: int, workers: set<Worker>, run: seq<Step>, st: State, w: Worker, s: Seq)
    requires Possible(max, workers, run) && Reached(max, workers, run) == st && ReadyFor(max, st, w, s)
    ensures Extends(max, workers, run, [Select(w, s), HandlerReturns(w)], During(st, w, s, st.rows[s], Handled(s, true)))
  {
    DuringSteps(max, st, w, s);
    hide Possible, Reached, CanStep, Next, During, ReadyFor;
    Continue(max, workers, run, Select(w, s));
    Continue(max, workers, run + [Select(w, s)], HandlerReturns(w));
    assert run + [Select(w, s)] + [HandlerReturns(w)] == run + [Select(w, s), HandlerReturns(w)];
  }

  lemma DeliveryIsARun(max: int, workers: set<Worker>, run: seq<Step>, st: State, w: Worker, s: Seq)
    requires Possible(max, workers, run) && Reached(max, workers, run) == st && ReadyFor(max, st, w, s)
    ensures Extends(max, workers, run, [Select(w, s), HandlerReturns(w), Commit(w)],
              During(st, w, s, Row(true, st.rows[s].attempts), Idle))
  {
    HandlingIsARun(max, workers, run, st, w, s);
    CommitSteps(max, st, w, s, true);
    hide Possible, Reached, CanStep, Next, During, ReadyFor;
    Continue(max, workers, run + [Select(w, s), HandlerReturns(w)], Commit(w));
    assert run + [Select(w, s), HandlerReturns(w)] + [Commit(w)] == run + [Select(w, s), HandlerReturns(w), Commit(w)];
  }

  lemma FailureIsARun(max: int, workers: set<Worker>, run: seq<Step>, st: State, w: Worker, s: Seq, recorded: bool)
    requires Possible(max, workers, run) && Reached(max, workers, run) == st && ReadyFor(max, st, w, s)
    ensures Extends(max, workers, run, [Select(w, s), HandlerThrows(w), if recorded then Record(w) else RecordFails(w)],
              During(st, w, s, Settled(st.rows, s, Fails(recorded))[s], Idle))
  {
    DuringSteps(max, st, w, s);
    RecordSteps(max, st, w, s, true, st.rows[s]);
    hide Possible, Reached, CanStep, Next, During;
    var last := if recorded then Record(w) else RecordFails(w);
    Continue(max, workers, run, Select(w, s));
    Continue(max, workers, run + [Select(w, s)], HandlerThrows(w));
    Continue(max, workers, run + [Select(w, s)] + [HandlerThrows(w)], last);
    assert run + [Select(w, s)] + [HandlerThrows(w)] + [last] == run + [Select(w, s), HandlerThrows(w), last];
  }

  lemma UnconfirmedIsARun(
    max: int, workers: set<Worker>, run: seq<Step>, st: State, w: Worker, s: Seq, recorded: bool, live: bool)
    requires Possible(max, workers, run) && Reached(max, workers, run) == st && ReadyFor(max, st, w, s) && (recorded ==> live)
    ensures Extends(max, workers, run,
              [Select(w, s), HandlerReturns(w), CommitUnconfirmed(w, live), if recorded then Record(w) else RecordFails(w)],
              During(st, w, s, Settled(st.rows, s, Unconfirmed(recorded))[s], Idle))
  {
    HandlingIsARun(max, workers, run, st, w, s);
    CommitSteps(max, st, w, s, live);
    RecordSteps(max, st, w, s, live, Row(true, st.rows[s].attempts));
    assert Settled(st.rows, s, Unconfirmed(recorded))[s] == Row(true, st.rows[s].attempts + if recorded then 1 else 0);
    hide Possible, Reached, CanStep, Next, During, ReadyFor, Settled;
    var run2 := run + [Select(w, s), HandlerReturns(w)];
    var last := if recorded then Record(w) else RecordFails(w);
    Continue(max, workers, run2, CommitUnconfirmed(w, live));
    Continue(max, workers, run2 + [CommitUnconfirmed(w, live)], last);
    assert run2 + [CommitUnconfirmed(w, live)] + [last] == run + [Select(w, s), HandlerReturns(w), CommitUnconfirmed(w, live), last];
  }

  /** From a state without locks, those steps are possible, lead to the settled table, and leave the worker idle and nothing locked. */
  lemma DispatchIsARun(max: int, workers: set<Worker>, run: seq<Step>, st: State, w: Worker, s: Seq, ending: Outcome, live: bool)
    requires Possible(max, workers, run) && Reached(max, workers, run) == st && ReadyFor(max, st, w, s)
    ensures Extends(max, workers, run, StepsOf(w, s, ending, live), st.(rows := Settled(st.rows, s, ending)))
  {
    BackToIdle(max, st, w, s, ending);
    hide Possible, Reached, During, Extends;
    match ending
    case Delivers => DeliveryIsARun(max, workers, run, st, w, s);
    case Fails(recorded) => FailureIsARun(max, workers, run, st, w, s, recorded);
    case Unconfirmed(recorded) => UnconfirmedIsARun(max, workers, run, st, w, s, recorded, live || recorded);
  }

  /** A commit that fails with nothing applied settles the row as a failing handler does. */
  lemma FailedCommitIsARun(max: int, workers: set<Worker>, run: seq<Step>, st: State, w: Worker, s: Seq, recorded: bool)
    requires Possible(max, workers, run) && Reached(max, workers, run) == st && ReadyFor(max, st, w, s)
    ensures Extends(max, workers, run,
              [Select(w, s), HandlerReturns(w), CommitFails(w), if recorded then Record(w) else RecordFails(w)],
              st.(rows := Settled(st.rows, s, Fails(recorded))))
  {
    HandlingIsARun(max, workers, run, st, w, s);
    CommitFailsStep(max, st, w, s);
    RecordSteps(max, st, w, s, true, st.rows[s]);
    BackToIdle(max, st, w, s, Fails(recorded));
    assert Settled(st.rows, s, Fails(recorded))[s] == Row(st.rows[s].dispatched, st.rows[s].attempts + if recorded then 1 else 0);
    hide Possible, Reached, CanStep, Next, During, ReadyFor, Settled;
    var run2 := run + [Select(w, s), HandlerReturns(w)];
    var last := if recorded then Record(w) else RecordFails(w);
    Continue(max, workers, run2, CommitFails(w));
    Continue(max, workers, run2 + [CommitFails(w)], last);
    assert run2 + [CommitFails(w)] + [last] == run + [Select(w, s), HandlerReturns(w), CommitFails(w), last];
  }

  lemma CommitFailsStep(max: int, st: State, w: Worker, s: Seq)
    requires ReadyFor(max, st, w, s)
    ensures var st1 := During(st, w, s, st.rows[s], Handled(s, true));
            CanStep(max, st1, CommitFails(w)) && Next(max, st1, CommitFails(w)) == During(st, w, s, st.rows[s], Recording(s, true))
  {
    assert map[s := HeldBy(w)] - {s} == map[];
  }

  /** A worker that crashes inside its transaction leaves the table as it was; once its lock is ended the row is free again. */
  lemma CrashIsUndone(max: int, workers: set<Worker>, run: seq<Step>, st: State, w: Worker, s: Seq)
    requires Possible(max, workers, run) && Reached(max, workers, run) == st && ReadyFor(max, st, w, s)
    ensures Extends(max, workers, run, [Select(w, s), Crash(w), Reap(s)], st)
  {
    DuringSteps(max, st, w, s);
    CrashSteps(max, st, w, s);
    hide Possible, Reached, CanStep, Next, During, ReadyFor;
    Continue(max, workers, run, Select(w, s));
    Continue(max, workers, run + [Select(w, s)], Crash(w));
    Continue(max, workers, run + [Select(w, s)] + [Crash(w)], Reap(s));
    assert run + [Select(w, s)] + [Crash(w)] + [Reap(s)] == run + [Select(w, s), Crash(w), Reap(s)];
  }

  lemma CrashSteps(max: int, st: State, w: Worker, s: Seq)
    requires ReadyFor(max, st, w, s)
    ensures var st1 := During(st, w, s, st.rows[s], Handling(s, true));
            && CanStep(max, st1, Crash(w)) && CanStep(max, Next(max, st1, Crash(w)), Reap(s))
            && Next(max, Next(max, st1, Crash(w)), Reap(s)) == st
  {
    assert st.rows[s := st.rows[s]] == st.rows && st.phases[w := Handling(s, true)][w := Idle] == st.phases;
    assert map[s := HeldBy(w)][s := Orphan] - {s} == map[];
  }

  lemma LosesConnection(max: int, workers: set<Worker>, run: seq<Step>, st: State, w: Worker, s: Seq)
    requires Possible(max, workers, run) && Reached(max, workers, run) == st && ReadyFor(max, st, w, s)
    ensures Extends(max, workers, run, [Select(w, s), ConnectionLost(w), Reap(s)], During(st, w, s, st.rows[s], Handling(s, false)))
  {
    hide Possible, Reached, CanStep, Next, During, ReadyFor;
    DuringSteps(max, st, w, s);
    LostSteps(max, st, w, s);
    Continue(max, workers, run, Select(w, s));
    var run1 := run + [Select(w, s)];
    Continue(max, workers, run1, ConnectionLost(w));
    Continue(max, workers, run1 + [ConnectionLost(w)], Reap(s));
    assert run1 + [ConnectionLost(w)] + [Reap(s)] == run + [Select(w, s), ConnectionLost(w), Reap(s)];
  }

  /** A connection lost while the handler runs: the row is free again, and the handler's result leaves the table as it was. */
  lemma LostConnectionIsUndone(max: int, workers: set<Worker>, run: seq<Step>, st: State, w: Worker, s: Seq)
    requires Possible(max, workers, run) && Reached(max, workers, run) == st && ReadyFor(max, st, w, s)
    ensures Extends(max, workers, run,
              [Select(w, s), ConnectionLost(w), Reap(s)] + [HandlerReturns(w), CommitFails(w), RecordFails(w)], st)
  {
    hide Possible, Reached, CanStep, Next, During, ReadyFor;
    LosesConnection(max, workers, run, st, w, s);
    LostSteps(max, st, w, s);
    var run2 := run + [Select(w, s), ConnectionLost(w), Reap(s)];
    Continue(max, workers, run2, HandlerReturns(w));
    Continue(max, workers, run2 + [HandlerReturns(w)], CommitFails(w));
    Continue(max, workers, run2 + [HandlerReturns(w)] + [CommitFails(w)], RecordFails(w));
    assert run2 + [HandlerReturns(w)] + [CommitFails(w)] + [RecordFails(w)] ==
           run + ([Select(w, s), ConnectionLost(w), Reap(s)] + [HandlerReturns(w), CommitFails(w), RecordFails(w)]);
  }

  /** After its connection is lost a worker can neither commit nor record an attempt. */
  lemma LostWorkerCannotWrite(max: int, st: State, e: Step, w: Worker)
    requires w in st.phases && !st.phases[w].Idle? && !st.phases[w].live && CanStep(max, st, e) && !e.Insert? && !e.Reap? && e.worker == w
    ensures Next(max, st, e).rows == st.rows && (Next(max, st, e).phases[w].Idle? || !Next(max, st, e).phases[w].live)
  {
  }

  lemma LostSteps(max: int, st: State, w: Worker, s: Seq)
    requires ReadyFor(max, st, w, s)
    ensures var st1 := During(st, w, s, st.rows[s], Handling(s, true));
            && CanStep(max, st1, ConnectionLost(w)) && CanStep(max, Next(max, st1, ConnectionLost(w)), Reap(s))
            && Next(max, Next(max, st1, ConnectionLost(w)), Reap(s)) == During(st, w, s, st.rows[s], Handling(s, false))
    ensures var st2 := During(st, w, s, st.rows[s], Handling(s, false));
            CanStep(max, st2, HandlerReturns(w)) && Next(max, st2, HandlerReturns(w)) == During(st, w, s, st.rows[s], Handled(s, false))
    ensures var st3 := During(st, w, s, st.rows[s], Handled(s, false));
            CanStep(max, st3, CommitFails(w)) && Next(max, st3, CommitFails(w)) == During(st, w, s, st.rows[s], Recording(s, false))
    ensures var st4 := During(st, w, s, st.rows[s], Recording(s, false));
            CanStep(max, st4, RecordFails(w)) && Next(max, st4, RecordFails(w)) == st
  {
    assert st.rows[s := st.rows[s]] == st.rows && st.phases[w := Recording(s, false)][w := Idle] == st.phases;
    assert map[s := HeldBy(w)][s := Orphan] - {s} == map[];
  }
}
