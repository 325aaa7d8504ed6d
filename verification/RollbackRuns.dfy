/**
 Whole runs of interleaved attempts over the unit of work (fake-iam-unit-of-work.ts:34-58, 235-263;
 fake-sample-unit-of-work.ts:51-75, 314-341).
 */
module RollbackRuns {
  import opened Wrappers
  import opened RollbackStore

  ghost predicate Possible<K(!new)>(run: seq<Event<K>>)
    decreases |run|, 0
  {
    run == [] || (var n := |run| - 1; Possible(run[..n]) && Enabled(Reached(run[..n]), run[n]))
  }

  /** The store after a run. */
  ghost function Reached<K(!new)>(run: seq<Event<K>>): Store<K>
    requires Possible(run)
    decreases |run|, 1
  {
    if run == [] then Initial() else
    var n := |run| - 1;
    Next(Reached(run[..n]), run[n])
  }

  lemma {:induction false} PossiblePrefix<K(!new)>(run: seq<Event<K>>, n: nat)
    requires Possible(run) && n <= |run|
    ensures Possible(run[..n])
    decreases |run| - n
  {
    if n == |run| {
      assert run[..n] == run;
    } else {
      PossiblePrefix(run, n + 1);
      assert run[..n + 1][..n] == run[..n];
    }
  }

  lemma Continue<K(!new)>(run: seq<Event<K>>, e: Event<K>)
    requires Possible(run) && Enabled(Reached(run), e)
    ensures Possible(run + [e]) && Reached(run + [e]) == Next(Reached(run), e)
  {
    assert (run + [e])[..|run|] == run;
  }

  lemma {:induction false} InvReached<K(!new)>(run: seq<Event<K>>)
    requires Possible(run)
    ensures Inv(Reached(run))
    decreases |run|
  {
    if run != [] {
      var n := |run| - 1;
      InvReached(run[..n]);
      InvNext(Reached(run[..n]), run[n]);
    }
  }

  // ---------------------------------------------------------------------------------------------
  // What one rollback may touch
  // ---------------------------------------------------------------------------------------------

  /** A rollback alters a key only if its own last write is there, and never creates a key. */
  lemma RollbackTouchesOwnWrites<K(!new)>(run: seq<Event<K>>, a: AttemptId, k: K)
    requires Possible(run) && Reached(run).IsRunning(a)
    ensures var s := Reached(run);
            var s' := Next(s, Abort(a));
            && (Get(s'.committed, k) != Get(s.committed, k) ==>
                  k in s.committed && Get(s.attempts[a].written, k) == Some(s.committed[k])
                  && s.committed[k] < |s.log| && s.Writer(s.committed[k]) == a)
            && (k in s'.committed ==> k in s.committed)
  {
    var s := Reached(run);
    InvReached(run);
    hide Possible, Reached;
    assert TidyAttempt(s, a);
  }

  /** A value left by an attempt that finished successfully stays until someone writes the key again. */
  lemma {:induction false} FinishedValueStays<K(!new)>(run: seq<Event<K>>, more: seq<Event<K>>, k: K)
    requires Possible(run) && Possible(run + more)
    requires var s := Reached(run);
             k in s.committed && s.committed[k] < |s.log| && s.Writer(s.committed[k]) in s.attempts
             && s.attempts[s.Writer(s.committed[k])].phase == Committed
    requires forall e :: e in more && e.Put? ==> e.key != k
    ensures Get(Reached(run + more).committed, k) == Get(Reached(run).committed, k)
    decreases |more|
  {
    if more == [] {
      assert run + more == run;
    } else {
      var n := |more| - 1;
      var before := run + more[..n];
      assert (run + more)[..|run + more| - 1] == before && (run + more)[|run + more| - 1] == more[n];
      assert Possible(before) && Enabled(Reached(before), more[n]);
      FinishedValueStays(run, more[..n], k);
      FinishedStaysFinished(run, more[..n], k);
      StepKeepsFinished(before, more[n], k);
    }
  }

  lemma {:induction false} FinishedStaysFinished<K(!new)>(run: seq<Event<K>>, more: seq<Event<K>>, k: K)
    requires Possible(run) && Possible(run + more)
    ensures var s, s' := Reached(run), Reached(run + more);
            s.log <= s'.log &&
            forall a :: a in s.attempts && s.attempts[a].phase == Committed ==> a in s'.attempts && s'.attempts[a].phase == Committed
    decreases |more|
  {
    if more == [] {
      assert run + more == run;
    } else {
      var n := |more| - 1;
      var before := run + more[..n];
      assert (run + more)[..|run + more| - 1] == before && (run + more)[|run + more| - 1] == more[n];
      FinishedStaysFinished(run, more[..n], k);
    }
  }

  lemma StepKeepsFinished<K(!new)>(run: seq<Event<K>>, e: Event<K>, k: K)
    requires Possible(run) && Enabled(Reached(run), e) && (e.Put? ==> e.key != k)
    requires var s := Reached(run);
             k in s.committed && s.committed[k] < |s.log| && s.Writer(s.committed[k]) in s.attempts
             && s.attempts[s.Writer(s.committed[k])].phase == Committed
    ensures Get(Next(Reached(run), e).committed, k) == Get(Reached(run).committed, k)
  {
    if e.Abort? { RollbackTouchesOwnWrites(run, e.attempt, k); }
  }

  // ---------------------------------------------------------------------------------------------
  // Exactly when aborted attempts leave no trace
  // ---------------------------------------------------------------------------------------------

  /** Every abort of the run passes the guard. */
  ghost predicate CleanRun<K(!new)>(run: seq<Event<K>>)
    requires Possible(run)
  {
    forall i :: 0 <= i < |run| && run[i].Abort? ==> CleanAt(run, i)
  }

  ghost predicate CleanAt<K(!new)>(run: seq<Event<K>>, i: nat)
    requires Possible(run) && i < |run| && run[i].Abort?
  {
    Possible(run[..i]) && Reached(run[..i]).IsRunning(run[i].attempt) && !DirtyRestore(Reached(run[..i]), run[i].attempt)
  }

  /** The store is the replay after every prefix of the run. */
  ghost predicate AlwaysAtomic<K(!new)>(run: seq<Event<K>>)
    requires Possible(run)
  {
    forall i :: 0 <= i <= |run| ==> AtomicAt(run, i)
  }

  ghost predicate AtomicAt<K(!new)>(run: seq<Event<K>>, i: nat)
    requires i <= |run|
  {
    Possible(run[..i]) && Atomic(Reached(run[..i]))
  }

  lemma {:induction false} AtomicIffCleanUpTo<K(!new)>(run: seq<Event<K>>, n: nat)
    requires Possible(run) && n <= |run|
    ensures Possible(run[..n])
    ensures (forall i :: 0 <= i <= n ==> AtomicAt(run, i)) <==> (forall i :: 0 <= i < n && run[i].Abort? ==> CleanAt(run, i))
    decreases n
  {
    PossiblePrefix(run, n);
    if n == 0 {
      assert run[..0] == [];
      assert AtomicAt(run, 0);
    } else {
      AtomicIffCleanUpTo(run, n - 1);
      AtomicStep(run, n - 1);
      hide AtomicAt, CleanAt;
    }
  }

  /** Reached an atomic prefix, the next state is atomic exactly when the step is not a dirty restore. */
  lemma AtomicStep<K(!new)>(run: seq<Event<K>>, i: nat)
    requires Possible(run) && i < |run|
    ensures AtomicAt(run, i) ==> (AtomicAt(run, i + 1) <==> (run[i].Abort? ==> CleanAt(run, i)))
  {
    PossiblePrefix(run, i);
    PossiblePrefix(run, i + 1);
    assert run[..i + 1][..i] == run[..i];
    var s := Reached(run[..i]);
    assert Reached(run[..i + 1]) == Next(s, run[i]) && Enabled(s, run[i]);
    InvReached(run[..i]);
    InvNext(s, run[i]);
    hide Possible, Reached, Inv, Atomic, Live, DirtyRestore, Next;
    AtomicIffLive(s);
    AtomicIffLive(Next(s, run[i]));
    if Live(s) { LiveNext(s, run[i]); }
  }

  /**
   The store is, throughout a run, the replay of the writes of attempts that have not aborted, exactly
   when no abort of the run restores a value whose writer has aborted.
   */
  lemma AtomicIffClean<K(!new)>(run: seq<Event<K>>)
    requires Possible(run)
    ensures AlwaysAtomic(run) <==> CleanRun(run)
  {
    AtomicIffCleanUpTo(run, |run|);
  }

  // ---------------------------------------------------------------------------------------------
  // Not overwriting a running attempt's value is enough
  // ---------------------------------------------------------------------------------------------

  ghost predicate ConsiderateRun<K(!new)>(run: seq<Event<K>>)
    requires Possible(run)
  {
    forall i :: 0 <= i < |run| ==> ConsiderateAt(run, i)
  }

  ghost predicate ConsiderateAt<K(!new)>(run: seq<Event<K>>, i: nat)
    requires i < |run|
  {
    Possible(run[..i]) && Considerate(Reached(run[..i]), run[i])
  }

  lemma {:induction false} ConsiderateIsAtomic<K(!new)>(run: seq<Event<K>>, n: nat)
    requires Possible(run) && ConsiderateRun(run) && n <= |run|
    ensures Possible(run[..n]) && var s := Reached(run[..n]); Inv(s) && Live(s) && Exclusive(s)
    decreases n
  {
    PossiblePrefix(run, n);
    if n == 0 {
      assert run[..0] == [];
    } else {
      ConsiderateIsAtomic(run, n - 1);
      assert run[..n][..n - 1] == run[..n - 1];
      assert ConsiderateAt(run, n - 1);
      hide Inv, Exclusive, Live;
      ExclusiveNext(Reached(run[..n - 1]), run[n - 1]);
    }
  }

  /**
   In every interleaving where no attempt overwrites a value of a still-running one, the store always
   equals the replay of the writes of attempts that have not aborted.
   */
  lemma ConsiderateRunsAreAtomic<K(!new)>(run: seq<Event<K>>)
    requires Possible(run) && ConsiderateRun(run)
    ensures AlwaysAtomic(run)
  {
    forall i | 0 <= i <= |run| ensures AtomicAt(run, i) {
      ConsiderateIsAtomic(run, i);
      AtomicIffLive(Reached(run[..i]));
      hide Possible, Reached, Inv, Live, Exclusive, Atomic;
    }
  }

  // ---------------------------------------------------------------------------------------------
  // An aborted value can come back
  // ---------------------------------------------------------------------------------------------

  /** A writes and B writes over it. */
  lemma TwoWriters<K(!new)>(k: K)
    ensures var run := [Begin(0), Begin(1), Put(0, k), Put(1, k)];
            && Possible(run)
            && Reached(run) == Store(map[k := 1], [LogEntry(0, k), LogEntry(1, k)],
                 map[0 := Attempt(map[k := None], map[k := 0], Running), 1 := Attempt(map[k := Some(0)], map[k := 1], Running)])
  {
    var idle := Attempt(map[], map[], Running);
    var r1: seq<Event<K>> := [Begin(0)];
    Continue([], Event<K>.Begin(0));
    assert [] + r1 == r1;
    assert Reached(r1) == Store(map[], [], map[0 := idle]);
    Continue(r1, Event<K>.Begin(1));
    var r2: seq<Event<K>> := [Begin(0), Begin(1)];
    assert r1 + [Begin(1)] == r2;
    assert Reached(r2) == Store(map[], [], map[0 := idle, 1 := idle]);
    Continue(r2, Put(0, k));
    var r3 := [Begin(0), Begin(1), Put(0, k)];
    assert r2 + [Put(0, k)] == r3;
    var t0 := Attempt(map[k := None], map[k := 0], Running);
    assert Reached(r3) == Store(map[k := 0], [LogEntry(0, k)], map[0 := t0, 1 := idle]);
    Continue(r3, Put(1, k));
    assert r3 + [Put(1, k)] == [Begin(0), Begin(1), Put(0, k), Put(1, k)];
    assert [LogEntry(0, k)] + [LogEntry(1, k)] == [LogEntry(0, k), LogEntry(1, k)];
  }

  /** Two aborts on one key, the earlier writer first: the aborted value comes back. */
  lemma AbortedValueReturns<K(!new)>(k: K)
    ensures var run := [Begin(0), Begin(1), Put(0, k), Put(1, k), Abort(0), Abort(1)];
            && Possible(run)
            && Reached(run).committed == map[k := 0] && Reached(run).log == [LogEntry(0, k), LogEntry(1, k)] && Reached(run).IsAborted(0)
            && !AlwaysAtomic(run)
  {
    var r4 := [Begin(0), Begin(1), Put(0, k), Put(1, k)];
    TwoWriters(k);
    var s4 := Reached(r4);
    var r5 := r4 + [Abort(0)];
    Continue(r4, Abort(0));
    AbortEffect(s4, 0);
    var r6 := r5 + [Abort(1)];
    assert r6 == [Begin(0), Begin(1), Put(0, k), Put(1, k), Abort(0), Abort(1)];
    hide Possible, Reached;
    var s5 := Reached(r5);
    assert Get(s5.committed, k) == Some(1);
    Continue(r5, Abort(1));
    AbortEffect(s5, 1);
    var s6 := Reached(r6);
    forall x ensures Get(s6.committed, x) == Get(map[k := 0], x) {
      assert Get(s5.committed, x) == RestoredAt(s4.committed, s4.attempts[0].prior, s4.attempts[0].written, x);
    }
    SameMaps(s6.committed, map[k := 0]);
    NotAtomic(r6);
  }

  lemma NotAtomic<K(!new)>(run: seq<Event<K>>)
    requires Possible(run)
    requires var s := Reached(run); exists k :: k in s.committed && s.committed[k] < |s.log| && s.IsAborted(s.Writer(s.committed[k]))
    ensures !AlwaysAtomic(run)
  {
    assert run[..|run|] == run;
    InvReached(run);
    AtomicIffLive(Reached(run));
    assert AlwaysAtomic(run) ==> AtomicAt(run, |run|);
  }
}
