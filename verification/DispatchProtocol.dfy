/**
 Several dispatchers over one outbox: lock a row, run the handler, commit or roll back, then record the
 failure in a second transaction, after the lock is gone (pg-polling-dispatcher.ts:170-293,
 with-transaction.ts:63-93).
 */
module DispatchProtocol {
  import opened Outbox

  type Worker = nat

  /** `live`: the worker's database connection works. */
  datatype Phase =
    | Idle
    | Handling(row: Seq, live: bool)
    | Handled(row: Seq, live: bool)
    | Recording(row: Seq, live: bool)
  {
    /** Inside the transaction that selected a row. */
    predicate Holds(s: Seq) { (Handling? || Handled?) && row == s && live }
    /** May still increment the row's attempts. */
    predicate Engaged(s: Seq) { !Idle? && row == s && live }
  }

  /** A row lock belongs to a worker's transaction, or to one whose client is gone and the server has yet to end. */
  datatype Lock = HeldBy(worker: Worker) | Orphan

  datatype State = State(rows: Table, locks: map<Seq, Lock>, phases: map<Worker, Phase>)

  datatype Step =
    | Insert(row: Seq)
    /** Any eligible unlocked row: what one worker sees as the lowest depends on what others have yet to commit. */
    | Select(worker: Worker, row: Seq)
    | HandlerReturns(worker: Worker)
    /** Rehydration fails or the handler throws; the transaction rolls back. */
    | HandlerThrows(worker: Worker)
    | Commit(worker: Worker)
    /** Marking the row or committing fails, and nothing is applied. */
    | CommitFails(worker: Worker)
    /** The commit is applied, but the worker is told that it failed. */
    | CommitUnconfirmed(worker: Worker, live: bool)
    | Record(worker: Worker)
    | RecordFails(worker: Worker)
    | ConnectionLost(worker: Worker)
    | Crash(worker: Worker)
    /** The server ends a transaction whose client is gone. */
    | Reap(row: Seq)

  predicate CanStep(max: int, st: State, e: Step) {
    match e
    case Insert(s) => s !in st.rows
    case Select(w, s) => w in st.phases && st.phases[w].Idle? && Eligible(st.rows, max, s) && s !in st.locks
    case HandlerReturns(w) => w in st.phases && st.phases[w].Handling?
    case HandlerThrows(w) => w in st.phases && st.phases[w].Handling?
    case Commit(w) => w in st.phases && st.phases[w].Handled? && st.phases[w].live && st.phases[w].row in st.rows
    case CommitFails(w) => w in st.phases && st.phases[w].Handled?
    case CommitUnconfirmed(w, _) => w in st.phases && st.phases[w].Handled? && st.phases[w].live && st.phases[w].row in st.rows
    case Record(w) =>
      // the UPDATE waits for the row lock
      && w in st.phases && st.phases[w].Recording? && st.phases[w].live
      && st.phases[w].row in st.rows && st.phases[w].row !in st.locks
    case RecordFails(w) => w in st.phases && st.phases[w].Recording?
    case ConnectionLost(w) => w in st.phases && !st.phases[w].Idle?
    case Crash(w) => w in st.phases
    case Reap(s) => s in st.locks && st.locks[s] == Orphan
  }

  function WithPhase(st: State, w: Worker, p: Phase): State { st.(phases := st.phases[w := p]) }

  /** The worker's transaction ends: its row lock is dropped. */
  function Released(st: State, w: Worker): State
    requires w in st.phases
  {
    if Owns(st, w) then st.(locks := st.locks - {st.phases[w].row}) else st
  }

  /** The client is gone: the lock stays until the server notices. */
  function Orphaned(st: State, w: Worker): State
    requires w in st.phases
  {
    if Owns(st, w) then st.(locks := st.locks[st.phases[w].row := Orphan]) else st
  }

  predicate Owns(st: State, w: Worker)
    requires w in st.phases
  {
    !st.phases[w].Idle? && st.phases[w].Holds(st.phases[w].row)
  }

  function Next(max: int, st: State, e: Step): State
    requires CanStep(max, st, e)
  {
    match e
    case Insert(s) => st.(rows := st.rows[s := Row(false, 0)])
    case Select(w, s) => WithPhase(st.(locks := st.locks[s := HeldBy(w)]), w, Handling(s, true))
    case HandlerReturns(w) => WithPhase(st, w, Handled(st.phases[w].row, st.phases[w].live))
    case HandlerThrows(w) => WithPhase(Released(st, w), w, Recording(st.phases[w].row, st.phases[w].live))
    case Commit(w) => WithPhase(Released(st, w).(rows := MarkDispatched(st.rows, st.phases[w].row)), w, Idle)
    case CommitFails(w) => WithPhase(Released(st, w), w, Recording(st.phases[w].row, st.phases[w].live))
    case CommitUnconfirmed(w, live) =>
      WithPhase(Released(st, w).(rows := MarkDispatched(st.rows, st.phases[w].row)), w, Recording(st.phases[w].row, live))
    case Record(w) => WithPhase(st.(rows := RecordFailure(st.rows, st.phases[w].row)), w, Idle)
    case RecordFails(w) => WithPhase(st, w, Idle)
    case ConnectionLost(w) => WithPhase(Orphaned(st, w), w, st.phases[w].(live := false))
    case Crash(w) => WithPhase(Orphaned(st, w), w, Idle)
    case Reap(s) => st.(locks := st.locks - {s})
  }

  function Start(workers: set<Worker>): State { State(map[], map[], map w | w in workers :: Idle) }

  predicate Possible(max: int, workers: set<Worker>, run: seq<Step>)
    decreases |run|, 0
  {
    run == [] || (var n := |run| - 1; Possible(max, workers, run[..n]) && CanStep(max, Reached(max, workers, run[..n]), run[n]))
  }

  function Reached(max: int, workers: set<Worker>, run: seq<Step>): State
    requires Possible(max, workers, run)
    decreases |run|, 1
  {
    if run == [] then Start(workers) else
    var n := |run| - 1;
    Next(max, Reached(max, workers, run[..n]), run[n])
  }

  // ---------------------------------------------------------------------------------------------
  // What every step keeps
  // ---------------------------------------------------------------------------------------------

  /** A worker inside its transaction has the row's lock. */
  ghost predicate HoldersHaveLocks(st: State) {
    forall w, s :: w in st.phases && st.phases[w].Holds(s) ==> s in st.locks && st.locks[s] == HeldBy(w)
  }

  /** Every lock that is not an orphan belongs to a worker inside its transaction. */
  ghost predicate LocksHaveHolders(st: State) {
    forall s :: s in st.locks && st.locks[s].HeldBy? ==>
      st.locks[s].worker in st.phases && st.phases[st.locks[s].worker].Holds(s)
  }

  ghost predicate RowsExist(st: State) {
    forall w, s :: w in st.phases && st.phases[w].Engaged(s) ==> s in st.rows
  }

  /** A held row is undispatched. */
  ghost predicate HeldPending(st: State) {
    forall w, s :: w in st.phases && st.phases[w].Holds(s) ==> s in st.rows && !st.rows[s].dispatched
  }

  ghost predicate LocksFit(st: State) {
    HoldersHaveLocks(st) && LocksHaveHolders(st) && RowsExist(st) && HeldPending(st)
  }

  /** The workers that may still increment the attempts of row `s`. */
  ghost function EngagedOn(st: State, s: Seq): set<Worker> {
    set w | w in st.phases && st.phases[w].Engaged(s)
  }

  /** Attempts made and attempts still to be recorded. */
  ghost predicate WithinBudget(max: int, st: State, s: Seq)
    requires s in st.rows
  {
    var engaged := |EngagedOn(st, s)|;
    st.rows[s].attempts + engaged > 0 ==> st.rows[s].attempts + engaged <= max + |st.phases| - 1
  }

  ghost predicate Inv(max: int, st: State) {
    LocksFit(st) && forall s :: s in st.rows ==> WithinBudget(max, st, s)
  }

  /** A step moves one worker, to a row it was on or selects. */
  lemma PhaseNext(max: int, st: State, e: Step, w: Worker)
    requires CanStep(max, st, e)
    ensures var st' := Next(max, st, e);
            && st'.phases.Keys == st.phases.Keys
            && (w in st.phases && st'.phases[w] != st.phases[w] ==> !e.Insert? && !e.Reap? && e.worker == w)
  {
  }

  /** A worker holds a row after a step because it held it before, or has just selected it. */
  lemma HoldsNext(max: int, st: State, e: Step, w: Worker, s: Seq)
    requires CanStep(max, st, e) && w in st.phases && Next(max, st, e).phases[w].Holds(s)
    ensures st.phases[w].Holds(s) || e == Select(w, s)
  {
  }

  /** A lock moves only with the worker that takes or leaves it. */
  lemma LockNext(max: int, st: State, e: Step, s: Seq)
    requires CanStep(max, st, e)
    ensures var st' := Next(max, st, e);
            || ((s in st'.locks <==> s in st.locks) && (s in st.locks ==> st'.locks[s] == st.locks[s]))
            || (exists w :: e == Select(w, s))
            || e == Reap(s)
            || (!e.Insert? && !e.Reap? && e.worker in st.phases && st.phases[e.worker].Holds(s)
                && !st'.phases[e.worker].Holds(s) && (s in st'.locks ==> st'.locks[s] == Orphan))
  {
  }

  lemma HoldersHaveLocksNext(max: int, st: State, e: Step)
    requires HoldersHaveLocks(st) && CanStep(max, st, e)
    ensures HoldersHaveLocks(Next(max, st, e))
  {
    var st' := Next(max, st, e);
    forall w, s | w in st'.phases && st'.phases[w].Holds(s) ensures s in st'.locks && st'.locks[s] == HeldBy(w) {
      PhaseNext(max, st, e, w);
      HoldsNext(max, st, e, w, s);
      LockNext(max, st, e, s);
      if e == Select(w, s) {
      } else {
        assert !e.Select? || e.row != s;
        hide Next;
      }
    }
  }

  lemma LocksHaveHoldersNext(max: int, st: State, e: Step)
    requires LocksHaveHolders(st) && CanStep(max, st, e)
    ensures LocksHaveHolders(Next(max, st, e))
  {
    var st' := Next(max, st, e);
    forall s | s in st'.locks && st'.locks[s].HeldBy?
      ensures st'.locks[s].worker in st'.phases && st'.phases[st'.locks[s].worker].Holds(s)
    {
      KeptLock(max, st, e, s);
    }
  }

  lemma KeptLock(max: int, st: State, e: Step, s: Seq)
    requires CanStep(max, st, e) && s in Next(max, st, e).locks && Next(max, st, e).locks[s].HeldBy?
    requires s in st.locks && st.locks[s].HeldBy? ==>
               st.locks[s].worker in st.phases && st.phases[st.locks[s].worker].Holds(s)
    ensures var st' := Next(max, st, e); st'.locks[s].worker in st'.phases && st'.phases[st'.locks[s].worker].Holds(s)
  {
  }

  /** Rows are never removed, dispatched rows stay dispatched, and only a holder's commit marks one. */
  lemma RowNext(max: int, st: State, e: Step, s: Seq)
    requires CanStep(max, st, e) && s in st.rows
    ensures var st' := Next(max, st, e);
            && s in st'.rows
            && (st.rows[s].dispatched ==> st'.rows[s].dispatched)
            && (st'.rows[s].dispatched && !st.rows[s].dispatched ==>
                  (e.Commit? || e.CommitUnconfirmed?) && st.phases[e.worker].Handled? && st.phases[e.worker].Holds(s))
            && (st'.rows[s].attempts ==
                  st.rows[s].attempts + if e.Record? && st.phases[e.worker].row == s then 1 else 0)
  {
  }

  lemma RowsExistNext(max: int, st: State, e: Step)
    requires RowsExist(st) && CanStep(max, st, e)
    ensures RowsExist(Next(max, st, e))
  {
    var st' := Next(max, st, e);
    forall w, s | w in st'.phases && st'.phases[w].Engaged(s) ensures s in st'.rows {
      assert w in st.phases && (st.phases[w].Engaged(s) || e == Select(w, s));
      RowNext(max, st, e, s);
    }
  }

  lemma HeldPendingNext(max: int, st: State, e: Step)
    requires LocksFit(st) && CanStep(max, st, e)
    ensures HeldPending(Next(max, st, e))
  {
    var st' := Next(max, st, e);
    hide LocksHaveHolders, RowsExist;
    forall w, s | w in st'.phases && st'.phases[w].Holds(s) ensures s in st'.rows && !st'.rows[s].dispatched {
      PhaseNext(max, st, e, w);
      HoldsNext(max, st, e, w, s);
      RowNext(max, st, e, s);
      assert st.phases[w].Holds(s) ==> st.locks[s] == HeldBy(w);
    }
  }

  lemma LocksFitNext(max: int, st: State, e: Step)
    requires LocksFit(st) && CanStep(max, st, e)
    ensures LocksFit(Next(max, st, e))
  {
    hide HoldersHaveLocks, LocksHaveHolders, RowsExist, HeldPending, CanStep, Next;
    HoldersHaveLocksNext(max, st, e);
    LocksHaveHoldersNext(max, st, e);
    RowsExistNext(max, st, e);
    HeldPendingNext(max, st, e);
  }

  lemma SubsetSize<T>(a: set<T>, b: set<T>)
    requires a <= b
    ensures |a| <= |b|
  {
    assert b == a + (b - a);
  }

  /** Only a selection engages a worker, and only from Idle. */
  lemma EngagedNext(max: int, st: State, e: Step, s: Seq)
    requires CanStep(max, st, e)
    ensures var before, after := EngagedOn(st, s), EngagedOn(Next(max, st, e), s);
            match e
            case Select(w, t) => after == if t == s then before + {w} else before
            case Record(w) => after == before - {w}
            case CommitUnconfirmed(_, _) => after <= before
            case _ => after <= before
  {
  }

  lemma WithinBudgetNext(max: int, st: State, e: Step, s: Seq)
    requires RowsExist(st) && CanStep(max, st, e) && s in Next(max, st, e).rows
    requires s in st.rows ==> WithinBudget(max, st, s)
    ensures WithinBudget(max, Next(max, st, e), s)
  {
    var st' := Next(max, st, e);
    EngagedNext(max, st, e, s);
    PhaseNext(max, st, e, 0);
    var before, after := EngagedOn(st, s), EngagedOn(st', s);
    SubsetSize(after, st'.phases.Keys);
    if s !in st.rows {
      assert before == {} && st'.rows[s].attempts == 0 && e == Insert(s);
      assert after == {};
    } else {
      RowNext(max, st, e, s);
      if e.Select? {
        hide Next, EngagedOn;
      } else {
        assert e.Record? && st.phases[e.worker].row == s ==> e.worker in before;
        hide Next, EngagedOn;
        SubsetSize(after, before);
      }
    }
  }

  lemma InvNext(max: int, st: State, e: Step)
    requires Inv(max, st) && CanStep(max, st, e)
    ensures Inv(max, Next(max, st, e))
  {
    hide HoldersHaveLocks, LocksHaveHolders, RowsExist, HeldPending, WithinBudget, Next, CanStep;
    LocksFitNext(max, st, e);
    forall s | s in Next(max, st, e).rows ensures WithinBudget(max, Next(max, st, e), s) {
      WithinBudgetNext(max, st, e, s);
    }
  }

  lemma {:induction false} InvReached(max: int, workers: set<Worker>, run: seq<Step>)
    requires Possible(max, workers, run)
    ensures Inv(max, Reached(max, workers, run)) && Reached(max, workers, run).phases.Keys == workers
    decreases |run|
  {
    if run != [] {
      var n := |run| - 1;
      InvReached(max, workers, run[..n]);
      hide Inv, Next, CanStep;
      InvNext(max, Reached(max, workers, run[..n]), run[n]);
      PhaseNext(max, Reached(max, workers, run[..n]), run[n], 0);
    }
  }

  // ---------------------------------------------------------------------------------------------
  // What every run promises
  // ---------------------------------------------------------------------------------------------

  /** At most one worker with a live connection is in the transaction of a row, and the row is undispatched meanwhile. */
  lemma OneHolderPerRow(max: int, workers: set<Worker>, run: seq<Step>, v: Worker, w: Worker, s: Seq)
    requires Possible(max, workers, run) && v in workers && w in workers
    requires var st := Reached(max, workers, run);
             v in st.phases && w in st.phases && st.phases[v].Holds(s) && st.phases[w].Holds(s)
    ensures v == w
    ensures s in Reached(max, workers, run).rows && !Reached(max, workers, run).rows[s].dispatched
  {
    InvReached(max, workers, run);
    hide Possible, Reached, LocksFit, WithinBudget;
    HoldersAgree(Reached(max, workers, run), v, w, s);
  }

  lemma HoldersAgree(st: State, v: Worker, w: Worker, s: Seq)
    requires LocksFit(st) && v in st.phases && w in st.phases && st.phases[v].Holds(s) && st.phases[w].Holds(s)
    ensures v == w && s in st.rows && !st.rows[s].dispatched
  {
    hide LocksHaveHolders, RowsExist;
    assert st.locks[s] == HeldBy(v) && st.locks[s] == HeldBy(w);
  }

  /** While a worker is inside the transaction of a row, only its own commit changes the row. */
  lemma HeldRowIsIsolated(max: int, workers: set<Worker>, run: seq<Step>, e: Step, w: Worker, s: Seq)
    requires Possible(max, workers, run) && CanStep(max, Reached(max, workers, run), e)
    requires var st := Reached(max, workers, run); w in st.phases && st.phases[w].Holds(s)
    ensures var st := Reached(max, workers, run);
            && s in st.rows && s in Next(max, st, e).rows
            && (Next(max, st, e).rows[s] != st.rows[s] ==> (e.Commit? || e.CommitUnconfirmed?) && e.worker == w)
  {
    InvReached(max, workers, run);
    var st := Reached(max, workers, run);
    hide Possible, Reached, WithinBudget;
    IsolatedNext(max, st, e, w, s);
  }

  lemma IsolatedNext(max: int, st: State, e: Step, w: Worker, s: Seq)
    requires LocksFit(st) && CanStep(max, st, e) && w in st.phases && st.phases[w].Holds(s)
    ensures s in st.rows && s in Next(max, st, e).rows
    ensures Next(max, st, e).rows[s] != st.rows[s] ==> (e.Commit? || e.CommitUnconfirmed?) && e.worker == w
  {
    RowNext(max, st, e, s);
    if e.Commit? || e.CommitUnconfirmed? {
      if st.phases[e.worker].row == s { HoldersAgree(st, e.worker, w, s); }
    }
    assert st.locks[s] == HeldBy(w);
    hide HoldersHaveLocks, LocksHaveHolders, RowsExist, HeldPending;
  }

  /** `attempts` never exceeds the maximum by more than the number of other workers. */
  lemma AttemptsAreBounded(max: int, workers: set<Worker>, run: seq<Step>, s: Seq)
    requires Possible(max, workers, run) && s in Reached(max, workers, run).rows
    ensures var attempts := Reached(max, workers, run).rows[s].attempts;
            attempts > 0 ==> attempts <= max + |workers| - 1
  {
    InvReached(max, workers, run);
    hide LocksFit;
    assert WithinBudget(max, Reached(max, workers, run), s);
  }

  lemma {:induction false} PossiblePrefix(max: int, workers: set<Worker>, run: seq<Step>, n: nat)
    requires Possible(max, workers, run) && n <= |run|
    ensures Possible(max, workers, run[..n])
    decreases |run| - n
  {
    if n == |run| {
      assert run[..n] == run;
    } else {
      PossiblePrefix(max, workers, run, n + 1);
      assert run[..n + 1][..n] == run[..n];
    }
  }

  lemma Continue(max: int, workers: set<Worker>, run: seq<Step>, e: Step)
    requires Possible(max, workers, run) && CanStep(max, Reached(max, workers, run), e)
    ensures Possible(max, workers, run + [e])
    ensures Reached(max, workers, run + [e]) == Next(max, Reached(max, workers, run), e)
  {
    assert (run + [e])[..|run|] == run;
  }

  /** The state before step `i`. */
  function At(max: int, workers: set<Worker>, run: seq<Step>, i: nat): State
    requires Possible(max, workers, run) && i <= |run|
  {
    PossiblePrefix(max, workers, run, i);
    Reached(max, workers, run[..i])
  }

  lemma AtNext(max: int, workers: set<Worker>, run: seq<Step>, i: nat)
    requires Possible(max, workers, run) && i < |run|
    ensures CanStep(max, At(max, workers, run, i), run[i])
    ensures At(max, workers, run, i + 1) == Next(max, At(max, workers, run, i), run[i])
    ensures Inv(max, At(max, workers, run, i))
  {
    PossiblePrefix(max, workers, run, i + 1);
    assert run[..i + 1][..i] == run[..i];
    InvReached(max, workers, run[..i]);
    hide Inv;
  }

  predicate DispatchedAt(max: int, workers: set<Worker>, run: seq<Step>, i: nat, s: Seq)
    requires Possible(max, workers, run) && i <= |run|
  {
    s in At(max, workers, run, i).rows && At(max, workers, run, i).rows[s].dispatched
  }

  lemma {:induction false} StaysDispatched(max: int, workers: set<Worker>, run: seq<Step>, i: nat, j: nat, s: Seq)
    requires Possible(max, workers, run) && i <= j <= |run| && DispatchedAt(max, workers, run, i, s)
    ensures DispatchedAt(max, workers, run, j, s)
    decreases j
  {
    if i < j {
      StaysDispatched(max, workers, run, i, j - 1, s);
      AtNext(max, workers, run, j - 1);
      hide At, Inv, Possible;
      RowNext(max, At(max, workers, run, j - 1), run[j - 1], s);
    }
  }

  /** The step commits row `s`, whether or not the worker gets to know. */
  predicate Commits(max: int, workers: set<Worker>, run: seq<Step>, i: nat, s: Seq)
    requires Possible(max, workers, run) && i < |run|
  {
    && (run[i].Commit? || run[i].CommitUnconfirmed?) && run[i].worker in At(max, workers, run, i).phases
    && At(max, workers, run, i).phases[run[i].worker].Holds(s)
  }

  /** A dispatched row is never selected again, no worker is inside its transaction, and it is never committed again. */
  lemma DispatchedIsFinal(max: int, workers: set<Worker>, run: seq<Step>, i: nat, j: nat, s: Seq)
    requires Possible(max, workers, run) && i <= j < |run| && DispatchedAt(max, workers, run, i, s)
    ensures !(run[j].Select? && run[j].row == s) && !Commits(max, workers, run, j, s)
    ensures forall w :: w in At(max, workers, run, j).phases ==> !At(max, workers, run, j).phases[w].Holds(s)
  {
    StaysDispatched(max, workers, run, i, j, s);
    AtNext(max, workers, run, j);
    hide At, Next, WithinBudget, Possible;
  }

  /** Worker `w` ran the handler on row `s` in step `i`, and it returned normally. */
  predicate Returned(max: int, workers: set<Worker>, run: seq<Step>, i: nat, w: Worker, s: Seq)
    requires Possible(max, workers, run) && i < |run|
  {
    run[i] == HandlerReturns(w) && w in At(max, workers, run, i).phases && At(max, workers, run, i).phases[w].Holds(s)
  }

  /** From step `i` up to state `j` worker `w` stays inside its transaction on row `s`. */
  predicate HoldsThrough(max: int, workers: set<Worker>, run: seq<Step>, i: nat, j: nat, w: Worker, s: Seq)
    requires Possible(max, workers, run) && j <= |run|
  {
    forall k :: i <= k <= j ==> w in At(max, workers, run, k).phases && At(max, workers, run, k).phases[w].Holds(s)
  }

  /** A worker that has handled a row ran the handler, which returned, in the transaction it is still in. */
  lemma {:induction false} HandledHasReturned(max: int, workers: set<Worker>, run: seq<Step>, j: nat, w: Worker, s: Seq)
    requires Possible(max, workers, run) && j <= |run|
    requires var p := At(max, workers, run, j).phases; w in p && p[w].Handled? && p[w].Holds(s)
    ensures exists i :: 0 <= i < j && Returned(max, workers, run, i, w, s) && HoldsThrough(max, workers, run, i, j, w, s)
    decreases j
  {
    if j > 0 {
      AtNext(max, workers, run, j - 1);
      var before := At(max, workers, run, j - 1);
      HandledNext(max, before, run[j - 1], w, s);
      hide At, Next, Inv, CanStep, Possible;
      if before.phases[w].Handled? {
        HandledHasReturned(max, workers, run, j - 1, w, s);
        var i :| 0 <= i < j - 1 && Returned(max, workers, run, i, w, s) && HoldsThrough(max, workers, run, i, j - 1, w, s);
        assert HoldsThrough(max, workers, run, i, j, w, s);
      } else {
        assert Returned(max, workers, run, j - 1, w, s) && HoldsThrough(max, workers, run, j - 1, j, w, s);
      }
    }
  }

  lemma HandledNext(max: int, st: State, e: Step, w: Worker, s: Seq)
    requires CanStep(max, st, e) && w in Next(max, st, e).phases
    requires Next(max, st, e).phases[w].Handled? && Next(max, st, e).phases[w].Holds(s)
    ensures w in st.phases && st.phases[w].Holds(s) && (st.phases[w].Handled? || e == HandlerReturns(w))
  {
  }

  /** Some worker's handler returned normally on row `s`, and that worker committed in the same transaction. */
  predicate Delivered(max: int, workers: set<Worker>, run: seq<Step>, s: Seq, i: nat, j: nat)
    requires Possible(max, workers, run) && i < j < |run|
  {
    && Commits(max, workers, run, j, s) && Returned(max, workers, run, i, run[j].worker, s)
    && HoldsThrough(max, workers, run, i, j, run[j].worker, s)
  }

  /** `dispatched_at` is set only by the worker whose handler returned, while its lock on the row was held throughout. */
  lemma {:induction false} DispatchedIsDelivered(max: int, workers: set<Worker>, run: seq<Step>, n: nat, s: Seq)
    requires Possible(max, workers, run) && n <= |run| && DispatchedAt(max, workers, run, n, s)
    ensures exists i, j :: 0 <= i < j < n && Delivered(max, workers, run, s, i, j)
    decreases n
  {
    if n > 0 {
      AtNext(max, workers, run, n - 1);
      var st := At(max, workers, run, n - 1);
      NewRow(max, st, run[n - 1], s);
      RowNext(max, st, run[n - 1], s);
      hide At, Next, Inv, CanStep, Possible, HoldsThrough, Returned;
      if DispatchedAt(max, workers, run, n - 1, s) {
        DispatchedIsDelivered(max, workers, run, n - 1, s);
      } else {
        var w := run[n - 1].worker;
        HandledHasReturned(max, workers, run, n - 1, w, s);
        var i :| 0 <= i < n - 1 && Returned(max, workers, run, i, w, s) && HoldsThrough(max, workers, run, i, n - 1, w, s);
        assert Delivered(max, workers, run, s, i, n - 1);
      }
    }
  }

  lemma NewRow(max: int, st: State, e: Step, s: Seq)
    requires CanStep(max, st, e) && s in Next(max, st, e).rows && Next(max, st, e).rows[s].dispatched
    ensures s in st.rows
  {
  }

  // ---------------------------------------------------------------------------------------------
  // The bound on attempts is reached
  // ---------------------------------------------------------------------------------------------

  ghost predicate Reachable(max: int, workers: set<Worker>, st: State) {
    exists run :: Possible(max, workers, run) && Reached(max, workers, run) == st
  }

  lemma ContinueReachable(max: int, workers: set<Worker>, st: State, e: Step)
    requires Reachable(max, workers, st) && CanStep(max, st, e)
    ensures Reachable(max, workers, Next(max, st, e))
  {
    var run :| Possible(max, workers, run) && Reached(max, workers, run) == st;
    hide Next, CanStep;
    Continue(max, workers, run, e);
  }

  /** One pending row with `attempts` recorded, and the workers of `late` yet to record theirs. */
  function Waiting(workers: set<Worker>, attempts: nat, late: set<Worker>): State {
    State(map[0 := Row(false, attempts)], map[], map w | w in workers :: if w in late then Recording(0, true) else Idle)
  }

  /** A worker selects the row and fails; its lock is gone before its attempt is recorded. */
  lemma FailsOnRow(max: int, workers: set<Worker>, attempts: nat, late: set<Worker>, w: Worker)
    requires Reachable(max, workers, Waiting(workers, attempts, late)) && w in workers && w !in late && attempts < max
    ensures Reachable(max, workers, Waiting(workers, attempts, late + {w}))
  {
    var st := Waiting(workers, attempts, late);
    hide Reachable;
    ContinueReachable(max, workers, st, Select(w, 0));
    var st1 := State(st.rows, map[0 := HeldBy(w)], st.phases[w := Handling(0, true)]);
    assert Next(max, st, Select(w, 0)) == st1;
    ContinueReachable(max, workers, st1, HandlerThrows(w));
    assert st1.locks - {0} == map[];
    assert st1.phases[w := Recording(0, true)] == Waiting(workers, attempts, late + {w}).phases;
    assert Next(max, st1, HandlerThrows(w)) == Waiting(workers, attempts, late + {w});
  }

  lemma RecordsLate(max: int, workers: set<Worker>, attempts: nat, late: set<Worker>, w: Worker)
    requires Reachable(max, workers, Waiting(workers, attempts, late)) && w in workers && w in late
    ensures Reachable(max, workers, Waiting(workers, attempts + 1, late - {w}))
  {
    var st := Waiting(workers, attempts, late);
    hide Reachable;
    ContinueReachable(max, workers, st, Record(w));
    assert st.rows[0 := Row(false, attempts + 1)] == map[0 := Row(false, attempts + 1)];
    assert st.phases[w := Idle] == Waiting(workers, attempts + 1, late - {w}).phases;
    assert Next(max, st, Record(w)) == Waiting(workers, attempts + 1, late - {w});
  }

  lemma {:induction false} FailsUpTo(max: int, workers: set<Worker>, w: Worker, attempts: nat)
    requires w in workers && attempts < max
    ensures Reachable(max, workers, Waiting(workers, attempts, {}))
  {
    if attempts == 0 {
      assert Possible(max, workers, []) && Reached(max, workers, []) == Start(workers);
      assert Reachable(max, workers, Start(workers));
      ContinueReachable(max, workers, Start(workers), Insert(0));
      assert Waiting(workers, 0, {}).phases == Start(workers).phases;
      assert map[][0 := Row(false, 0)] == map[0 := Row(false, 0)];
      assert Next(max, Start(workers), Insert(0)) == Waiting(workers, 0, {});
    } else {
      FailsUpTo(max, workers, w, attempts - 1);
      hide Reachable, Waiting;
      FailsOnRow(max, workers, attempts - 1, {}, w);
      RecordsLate(max, workers, attempts - 1, {} + {w}, w);
      assert {} + {w} - {w} == {};
    }
  }

  /** Every worker of `late` fails on the row before any of them records. */
  lemma {:induction false} AllFail(max: int, workers: set<Worker>, attempts: nat, late: set<Worker>)
    requires Reachable(max, workers, Waiting(workers, attempts, {})) && attempts < max && late <= workers
    ensures Reachable(max, workers, Waiting(workers, attempts, late))
    decreases |late|
  {
    if late != {} {
      var w :| w in late;
      AllFail(max, workers, attempts, late - {w});
      hide Reachable, Waiting;
      FailsOnRow(max, workers, attempts, late - {w}, w);
      assert late - {w} + {w} == late;
    }
  }

  lemma {:induction false} AllRecord(max: int, workers: set<Worker>, attempts: nat, late: set<Worker>)
    requires Reachable(max, workers, Waiting(workers, attempts, late)) && late <= workers
    ensures Reachable(max, workers, Waiting(workers, attempts + |late|, {}))
    decreases |late|
  {
    if late != {} {
      var w :| w in late;
      hide Reachable, Waiting;
      RecordsLate(max, workers, attempts, late, w);
      AllRecord(max, workers, attempts + 1, late - {w});
      assert |late - {w}| == |late| - 1;
    }
  }

  /** So the bound is exact: with any workers, some run takes a row's attempts to `max + |workers| - 1`. */
  lemma BoundIsReached(max: int, workers: set<Worker>)
    requires max > 0 && workers != {}
    ensures exists run ::
              && Possible(max, workers, run) && 0 in Reached(max, workers, run).rows
              && Reached(max, workers, run).rows[0] == Row(false, max + |workers| - 1)
  {
    var w :| w in workers;
    FailsUpTo(max, workers, w, max - 1);
    AllFail(max, workers, max - 1, workers);
    AllRecord(max, workers, max - 1, workers);
    assert Reachable(max, workers, Waiting(workers, max - 1 + |workers|, {}));
  }
}
