/**
 The unit of work without a staging copy: writes are visible at once, and an attempt that throws restores
 the keys whose value is still its own (fake-iam-unit-of-work.ts:34-58, 235-263;
 fake-sample-unit-of-work.ts:51-75, 314-341).
 */
module RollbackStore {
  import opened Wrappers

  // ---------------------------------------------------------------------------------------------
  // One attempt's tracker
  // ---------------------------------------------------------------------------------------------

  /** `prior` after `remember(id)`: taken again whenever someone else's value is there now. */
  function Remembered<K(==), V(==)>(committed: map<K, V>, prior: map<K, Option<V>>, written: map<K, V>, id: K): map<K, Option<V>> {
    if id !in prior || Get(committed, id) != Get(written, id) then prior[id := Get(committed, id)] else prior
  }

  /** What `rollback` leaves under `k`: the prior value if the attempt's own write is still there. */
  function RestoredAt<K(==), V(==)>(committed: map<K, V>, prior: map<K, Option<V>>, written: map<K, V>, k: K): Option<V> {
    if k in prior && Get(committed, k) == Get(written, k) then prior[k] else Get(committed, k)
  }

  ghost predicate IsRestored<K(!new), V>(committed: map<K, V>, prior: map<K, Option<V>>, written: map<K, V>, after: map<K, V>) {
    forall k :: Get(after, k) == RestoredAt(committed, prior, written, k)
  }

  /** A JavaScript `Map` shared by every attempt. Its values are instances, compared by identity. */
  class CommittedMap<K(==), V(==)> {
    var entries: map<K, V>

    constructor ()
      ensures entries == map[]
    {
      entries := map[];
    }
  }

  class RollbackTrackedMap<K(==, !new), V(==)> {
    const committed: CommittedMap<K, V>
    var prior: map<K, Option<V>>
    var written: map<K, V>

    constructor (committed: CommittedMap<K, V>)
      ensures this.committed == committed && prior == map[] && written == map[]
    {
      this.committed := committed;
      prior, written := map[], map[];
    }

    method Remember(id: K)
      modifies this`prior
      ensures prior == Remembered(committed.entries, old(prior), written, id)
    {
      if id !in prior || Get(committed.entries, id) != Get(written, id) {
        prior := prior[id := Get(committed.entries, id)];
      }
    }

    method Write(id: K, value: V)
      modifies this`written, committed
      ensures committed.entries == old(committed.entries)[id := value]
      ensures written == old(written)[id := value]
    {
      committed.entries := committed.entries[id := value];
      written := written[id := value];
    }

    method Rollback()
      modifies committed
      ensures IsRestored(old(committed.entries), prior, written, committed.entries)
    {
      var ids := prior.Keys;
      ghost var before := committed.entries;
      while ids != {}
        invariant ids <= prior.Keys
        invariant forall k :: Get(committed.entries, k) ==
                    if k in ids then Get(before, k) else RestoredAt(before, prior, written, k)
        decreases |ids|
      {
        var id :| id in ids;
        ids := ids - {id};
        if Get(committed.entries, id) != Get(written, id) { continue; }
        match prior[id]
        case None => committed.entries := committed.entries - {id};
        case Some(value) => committed.entries := committed.entries[id := value];
      }
    }
  }

  // ---------------------------------------------------------------------------------------------
  // Interleaved attempts
  // ---------------------------------------------------------------------------------------------

  type AttemptId = nat

  /** Every write stores a fresh instance, named by its place in the log of all writes. */
  type Instance = nat

  datatype LogEntry<K> = LogEntry(attempt: AttemptId, key: K)

  datatype Phase = Running | Committed | Aborted

  datatype Attempt<K> = Attempt(prior: map<K, Option<Instance>>, written: map<K, Instance>, phase: Phase)

  datatype Store<K> = Store(committed: map<K, Instance>, log: seq<LogEntry<K>>, attempts: map<AttemptId, Attempt<K>>) {
    ghost predicate IsRunning(a: AttemptId) { a in attempts && attempts[a].phase == Running }
    ghost predicate IsAborted(a: AttemptId) { a in attempts && attempts[a].phase == Aborted }

    /** The attempt that wrote instance `r`. */
    ghost function Writer(r: Instance): AttemptId
      requires r < |log|
    {
      log[r].attempt
    }
  }

  /** Attempts interleave at every `await`: any order of these events, as long as each attempt is running. */
  datatype Event<K> =
    | Begin(attempt: AttemptId)
    | Put(attempt: AttemptId, key: K)
    | Commit(attempt: AttemptId)
    | Abort(attempt: AttemptId)

  ghost predicate Enabled<K(!new)>(s: Store<K>, e: Event<K>) {
    if e.Begin? then e.attempt !in s.attempts else s.IsRunning(e.attempt)
  }

  ghost function Restored<K(!new)>(committed: map<K, Instance>, a: Attempt<K>): (after: map<K, Instance>)
    ensures IsRestored(committed, a.prior, a.written, after)
  {
    map k | k in committed.Keys + a.prior.Keys && RestoredAt(committed, a.prior, a.written, k).Some? ::
      RestoredAt(committed, a.prior, a.written, k).value
  }

  ghost function Next<K(!new)>(s: Store<K>, e: Event<K>): Store<K>
    requires Enabled(s, e)
  {
    match e
    case Begin(a) => s.(attempts := s.attempts[a := Attempt(map[], map[], Running)])
    case Put(a, k) =>
      var t := s.attempts[a];
      var r := |s.log|;
      Store(
        s.committed[k := r],
        s.log + [LogEntry(a, k)],
        s.attempts[a := Attempt(Remembered(s.committed, t.prior, t.written, k), t.written[k := r], Running)])
    case Commit(a) => s.(attempts := s.attempts[a := s.attempts[a].(phase := Committed)])
    case Abort(a) =>
      s.(committed := Restored(s.committed, s.attempts[a]),
         attempts := s.attempts[a := s.attempts[a].(phase := Aborted)])
  }

  ghost function Initial<K>(): Store<K> { Store(map[], [], map[]) }

  /** The map built by replaying, in order, only the writes of attempts that have not aborted. */
  ghost function Replay<K>(s: Store<K>, n: nat): map<K, Instance>
    requires n <= |s.log|
  {
    if n == 0 then map[]
    else
      var m := Replay(s, n - 1);
      if s.IsAborted(s.log[n - 1].attempt) then m else m[s.log[n - 1].key := n - 1]
  }

  ghost predicate Atomic<K>(s: Store<K>) { s.committed == Replay(s, |s.log|) }

  // ---------------------------------------------------------------------------------------------
  // What every step keeps
  // ---------------------------------------------------------------------------------------------

  /** Instances sit under the key they were written to, and trackers know only their own writes. */
  ghost predicate Tidy<K(!new)>(s: Store<K>) {
    && (forall k :: k in s.committed ==> s.committed[k] < |s.log| && s.log[s.committed[k]].key == k)
    && (forall r :: 0 <= r < |s.log| ==>
          && s.log[r].attempt in s.attempts
          && s.log[r].key in s.attempts[s.log[r].attempt].written
          && r <= s.attempts[s.log[r].attempt].written[s.log[r].key])
    && (forall a :: a in s.attempts ==> TidyAttempt(s, a))
  }

  ghost predicate TidyAttempt<K(!new)>(s: Store<K>, a: AttemptId)
    requires a in s.attempts
  {
    var t := s.attempts[a];
    && t.prior.Keys == t.written.Keys
    && (forall k :: k in t.written ==> t.written[k] < |s.log| && s.log[t.written[k]] == LogEntry(a, k))
    && (forall k :: k in t.prior && t.prior[k].Some? ==>
          t.prior[k].value < t.written[k] && s.log[t.prior[k].value].key == k && s.log[t.prior[k].value].attempt != a)
  }

  /** Position just after the instance, or the start of the log. */
  ghost function AfterInstance(r: Option<Instance>): nat { if r.Some? then r.value + 1 else 0 }

  /** Every write to `k` in this stretch of the log is by `a` or by an aborted attempt. */
  ghost predicate OnlyBy<K>(s: Store<K>, k: K, lo: nat, hi: nat, a: AttemptId) {
    forall r :: lo <= r < hi && r < |s.log| && s.log[r].key == k ==> s.log[r].attempt == a || s.IsAborted(s.log[r].attempt)
  }

  /** Every write to `k` after the committed one has been aborted. */
  ghost predicate Superseded<K>(s: Store<K>, k: K) {
    forall r :: AfterInstance(Get(s.committed, k)) <= r < |s.log| && s.log[r].key == k ==> s.IsAborted(s.log[r].attempt)
  }

  /** Between what an attempt remembers and what it wrote last lie only its own writes and aborted ones. */
  ghost predicate Remembers<K(!new)>(s: Store<K>, a: AttemptId)
    requires a in s.attempts
  {
    var t := s.attempts[a];
    forall k :: k in t.prior && k in t.written ==> OnlyBy(s, k, AfterInstance(t.prior[k]), t.written[k] + 1, a)
  }

  ghost predicate Inv<K(!new)>(s: Store<K>) {
    && Tidy(s)
    && (forall k :: Superseded(s, k))
    && (forall a :: a in s.attempts ==> Remembers(s, a))
  }

  lemma TidyCommittedNext<K(!new)>(s: Store<K>, e: Event<K>)
    requires Tidy(s) && Enabled(s, e)
    ensures var s' := Next(s, e);
            forall k :: k in s'.committed ==> s'.committed[k] < |s'.log| && s'.log[s'.committed[k]].key == k
  {
    var s' := Next(s, e);
    if e.Abort? {
      var t := s.attempts[e.attempt];
      assert TidyAttempt(s, e.attempt);
      forall k | k in s'.committed ensures s'.committed[k] < |s'.log| && s'.log[s'.committed[k]].key == k {
        assert Get(s'.committed, k) == RestoredAt(s.committed, t.prior, t.written, k);
      }
    }
  }

  lemma TidyLogNext<K(!new)>(s: Store<K>, e: Event<K>)
    requires Tidy(s) && Enabled(s, e)
    ensures var s' := Next(s, e);
            forall r :: 0 <= r < |s'.log| ==>
              && s'.log[r].attempt in s'.attempts
              && s'.log[r].key in s'.attempts[s'.log[r].attempt].written
              && r <= s'.attempts[s'.log[r].attempt].written[s'.log[r].key]
  {
    hide Remembered, RestoredAt, IsRestored;
  }

  /** A running attempt's value, where it is the committed one, is its last write. */
  lemma OwnValueIsLast<K(!new)>(s: Store<K>, a: AttemptId, k: K)
    requires Tidy(s) && Superseded(s, k) && s.IsRunning(a)
    ensures k in s.committed && s.Writer(s.committed[k]) == a ==> Get(s.attempts[a].written, k) == Some(s.committed[k])
  {
    assert TidyAttempt(s, a);
    if k in s.committed && s.Writer(s.committed[k]) == a {
      var r := s.committed[k];
      assert s.log[r] == LogEntry(a, k);
      var w := s.attempts[a].written[k];
      assert s.log[w].key == k && s.log[w].attempt == a;
    }
  }

  /** Steps other than its own writes leave what an attempt tracks, and the log only grows. */
  lemma SameTracker<K(!new)>(s: Store<K>, e: Event<K>, a: AttemptId)
    requires Enabled(s, e) && a in s.attempts && !(e.Put? && e.attempt == a)
    ensures var s' := Next(s, e);
            && a in s'.attempts && s'.attempts[a].prior == s.attempts[a].prior && s'.attempts[a].written == s.attempts[a].written
            && s.log <= s'.log
  {
    hide RestoredAt, IsRestored, Remembered;
  }

  lemma TidyAttemptNext<K(!new)>(s: Store<K>, e: Event<K>, a: AttemptId)
    requires Tidy(s) && Enabled(s, e) && a in Next(s, e).attempts && forall k :: Superseded(s, k)
    ensures TidyAttempt(Next(s, e), a)
  {
    hide Next;
    if a !in s.attempts {
      NewAttempt(s, e, a);
    } else if e.Put? && e.attempt == a {
      OwnValueIsLast(s, a, e.key);
      PutTidy(s, a, e.key);
    } else {
      SameTracker(s, e, a);
      assert TidyAttempt(s, a);
    }
  }

  lemma NewAttempt<K(!new)>(s: Store<K>, e: Event<K>, a: AttemptId)
    requires Enabled(s, e) && a in Next(s, e).attempts && a !in s.attempts
    ensures Next(s, e).attempts[a] == Attempt(map[], map[], Running)
  {
  }

  lemma PutTidy<K(!new)>(s: Store<K>, a: AttemptId, k: K)
    requires s.IsRunning(a) && TidyAttempt(s, a)
    requires k in s.committed ==> s.committed[k] < |s.log| && s.log[s.committed[k]].key == k
    requires k in s.committed && s.Writer(s.committed[k]) == a ==> Get(s.attempts[a].written, k) == Some(s.committed[k])
    ensures TidyAttempt(Next(s, Put(a, k)), a)
  {
    var t := s.attempts[a];
    var s' := Next(s, Put(a, k));
    var prior := Remembered(s.committed, t.prior, t.written, k);
    assert s'.attempts[a] == Attempt(prior, t.written[k := |s.log|], Running) && s'.log == s.log + [LogEntry(a, k)];
    hide Next;
    assert prior.Keys == t.prior.Keys + {k};
    forall x | x in prior && prior[x].Some?
      ensures prior[x].value < t.written[k := |s.log|][x]
      ensures s'.log[prior[x].value].key == x && s'.log[prior[x].value].attempt != a
    {
      assert x != k ==> prior[x] == t.prior[x];
    }
  }

  lemma TidyNext<K(!new)>(s: Store<K>, e: Event<K>)
    requires Tidy(s) && Enabled(s, e) && forall k :: Superseded(s, k)
    ensures Tidy(Next(s, e))
  {
    TidyCommittedNext(s, e);
    TidyLogNext(s, e);
    forall a | a in Next(s, e).attempts ensures TidyAttempt(Next(s, e), a) { TidyAttemptNext(s, e, a); }
    hide TidyAttempt, Next;
  }

  lemma SupersededNext<K(!new)>(s: Store<K>, e: Event<K>, k: K)
    requires Tidy(s) && Enabled(s, e) && Superseded(s, k) && (e.Abort? ==> Remembers(s, e.attempt))
    ensures Superseded(Next(s, e), k)
  {
    var s' := Next(s, e);
    forall r | AfterInstance(Get(s'.committed, k)) <= r < |s'.log| && s'.log[r].key == k
      ensures s'.IsAborted(s'.log[r].attempt)
    {
      if e.Abort? {
        var t := s.attempts[e.attempt];
        assert TidyAttempt(s, e.attempt);
        assert Get(s'.committed, k) == RestoredAt(s.committed, t.prior, t.written, k);
        if k in t.prior && Get(s.committed, k) == Get(t.written, k) && r <= t.written[k] {
          assert OnlyBy(s, k, AfterInstance(t.prior[k]), t.written[k] + 1, e.attempt);
        }
      }
    }
  }

  /** A stretch stays accounted for: the log only grows, and an aborted attempt stays aborted. */
  lemma OnlyByNext<K(!new)>(s: Store<K>, e: Event<K>, k: K, lo: nat, hi: nat, a: AttemptId)
    requires Enabled(s, e) && OnlyBy(s, k, lo, hi, a) && hi <= |s.log|
    ensures OnlyBy(Next(s, e), k, lo, hi, a)
  {
    hide Remembered, RestoredAt, IsRestored;
  }

  /** What an attempt remembers just before it writes: since then only itself and aborted attempts have written. */
  lemma RememberedOnlyBy<K(!new)>(s: Store<K>, a: AttemptId, k: K)
    requires TidyAttemptAt(s, a, k) && Superseded(s, k)
    requires k in s.attempts[a].prior ==> OnlyBy(s, k, AfterInstance(s.attempts[a].prior[k]), s.attempts[a].written[k] + 1, a)
    ensures OnlyBy(s, k, AfterInstance(Remembered(s.committed, s.attempts[a].prior, s.attempts[a].written, k)[k]), |s.log|, a)
  {
  }

  ghost predicate TidyAttemptAt<K(!new)>(s: Store<K>, a: AttemptId, k: K) {
    a in s.attempts && (k in s.attempts[a].prior <==> k in s.attempts[a].written)
  }

  lemma PutRemembers<K(!new)>(s: Store<K>, a: AttemptId, k: K)
    requires Tidy(s) && s.IsRunning(a) && Superseded(s, k) && Remembers(s, a)
    ensures var s' := Next(s, Put(a, k));
            var t' := s'.attempts[a];
            k in t'.prior && OnlyBy(s', k, AfterInstance(t'.prior[k]), t'.written[k] + 1, a)
  {
    var t := s.attempts[a];
    assert TidyAttempt(s, a);
    hide Tidy, Superseded, OnlyBy;
    RememberedOnlyBy(s, a, k);
    hide Remembers, TidyAttempt;
    var lo := AfterInstance(Remembered(s.committed, t.prior, t.written, k)[k]);
    OnlyByNext(s, Put(a, k), k, lo, |s.log|, a);
    hide AfterInstance, Remembered;
    OwnWriteLast(s, a, k, lo);
  }

  lemma OwnWriteLast<K(!new)>(s: Store<K>, a: AttemptId, k: K, lo: nat)
    requires s.IsRunning(a) && OnlyBy(Next(s, Put(a, k)), k, lo, |s.log|, a)
    ensures OnlyBy(Next(s, Put(a, k)), k, lo, |s.log| + 1, a)
  {
    var s' := Next(s, Put(a, k));
    assert s'.log == s.log + [LogEntry(a, k)];
    hide Next;
  }

  /** A step changes what an attempt knows of a key only by that attempt's own write to it. */
  lemma TrackerAt<K(!new)>(s: Store<K>, e: Event<K>, a: AttemptId, k: K)
    requires Enabled(s, e) && a in s.attempts && e != Put(a, k)
    ensures var t, t' := s.attempts[a], Next(s, e).attempts[a];
            Get(t'.prior, k) == Get(t.prior, k) && Get(t'.written, k) == Get(t.written, k)
  {
    hide RestoredAt, IsRestored;
  }

  lemma RemembersNext<K(!new)>(s: Store<K>, e: Event<K>, a: AttemptId)
    requires Tidy(s) && Enabled(s, e) && (forall k :: Superseded(s, k))
    requires a in Next(s, e).attempts && (a in s.attempts ==> Remembers(s, a))
    ensures Remembers(Next(s, e), a)
  {
    hide Superseded, OnlyBy, Next;
    var t' := Next(s, e).attempts[a];
    if a !in s.attempts { NewAttempt(s, e, a); }
    forall k | k in t'.prior && k in t'.written
      ensures OnlyBy(Next(s, e), k, AfterInstance(t'.prior[k]), t'.written[k] + 1, a)
    {
      if a in s.attempts {
        assert TidyAttempt(s, a);
        if e == Put(a, k) {
          PutRemembers(s, a, k);
        } else {
          TrackerAt(s, e, a, k);
          OnlyByNext(s, e, k, AfterInstance(s.attempts[a].prior[k]), s.attempts[a].written[k] + 1, a);
        }
      }
    }
  }

  /** The unconditional invariant: overwrites and aborts included. */
  lemma InvNext<K(!new)>(s: Store<K>, e: Event<K>)
    requires Inv(s) && Enabled(s, e)
    ensures Inv(Next(s, e))
  {
    hide Tidy, Superseded, Remembers, Next;
    TidyNext(s, e);
    assert e.Abort? ==> Remembers(s, e.attempt) by { }
    forall k ensures Superseded(Next(s, e), k) { SupersededNext(s, e, k); }
    forall a | a in Next(s, e).attempts ensures Remembers(Next(s, e), a) { RemembersNext(s, e, a); }
  }

  // ---------------------------------------------------------------------------------------------
  // Exactly when aborted attempts leave no trace
  // ---------------------------------------------------------------------------------------------

  /** Every committed value was written by an attempt that has not aborted. */
  ghost predicate Live<K(!new)>(s: Store<K>) {
    forall k :: k in s.committed ==> s.committed[k] < |s.log| && !s.IsAborted(s.Writer(s.committed[k]))
  }

  lemma {:induction false} ReplayValues<K(!new)>(s: Store<K>, n: nat, k: K)
    requires n <= |s.log|
    ensures var m := Replay(s, n);
            && (k in m ==> m[k] < n && s.log[m[k]].key == k && !s.IsAborted(s.Writer(m[k]))
                           && forall r :: m[k] < r < n && s.log[r].key == k ==> s.IsAborted(s.log[r].attempt))
            && (k !in m ==> forall r :: 0 <= r < n && s.log[r].key == k ==> s.IsAborted(s.log[r].attempt))
    decreases n
  {
    if n > 0 { ReplayValues(s, n - 1, k); }
  }

  lemma ReplayAt<K(!new)>(s: Store<K>, k: K)
    requires Superseded(s, k)
    requires k in s.committed ==>
               s.committed[k] < |s.log| && s.log[s.committed[k]].key == k && !s.IsAborted(s.Writer(s.committed[k]))
    ensures Get(Replay(s, |s.log|), k) == Get(s.committed, k)
  {
    hide Replay;
    ReplayValues(s, |s.log|, k);
  }

  /** The committed map is the replay exactly when no committed value is an aborted attempt's. */
  lemma AtomicIffLive<K(!new)>(s: Store<K>)
    requires Inv(s)
    ensures Atomic(s) <==> Live(s)
  {
    hide Replay, Remembers, Superseded;
    if Live(s) {
      forall k ensures Get(Replay(s, |s.log|), k) == Get(s.committed, k) { ReplayAt(s, k); }
      SameMaps(Replay(s, |s.log|), s.committed);
    }
    if Atomic(s) {
      forall k | k in s.committed ensures s.committed[k] < |s.log| && !s.IsAborted(s.Writer(s.committed[k])) {
        ReplayValues(s, |s.log|, k);
      }
    }
  }

  lemma SameMaps<K(!new), V>(m: map<K, V>, n: map<K, V>)
    requires forall k :: Get(m, k) == Get(n, k)
    ensures m == n
  {
    forall k ensures k in m <==> k in n { assert Get(m, k) == Get(n, k); }
    forall k | k in m ensures m[k] == n[k] { assert Get(m, k) == Get(n, k); }
  }

  /** The guard: this abort would put back a value whose own writer has aborted. */
  ghost predicate DirtyRestore<K(!new)>(s: Store<K>, a: AttemptId)
    requires s.IsRunning(a)
  {
    var t := s.attempts[a];
    exists k :: && k in t.prior && Get(s.committed, k) == Get(t.written, k) && k in t.written
                && t.prior[k].Some? && t.prior[k].value < |s.log| && s.IsAborted(s.Writer(t.prior[k].value))
  }

  /** One step keeps the store live exactly when it is not a dirty restore. */
  lemma LiveNext<K(!new)>(s: Store<K>, e: Event<K>)
    requires Inv(s) && Live(s) && Enabled(s, e)
    ensures Live(Next(s, e)) <==> !(e.Abort? && DirtyRestore(s, e.attempt))
  {
    if e.Abort? {
      AbortLive(s, e.attempt);
    } else {
      hide Tidy, Superseded, Remembers, RestoredAt, IsRestored;
    }
  }

  lemma AbortEffect<K(!new)>(s: Store<K>, a: AttemptId)
    requires s.IsRunning(a)
    ensures var t, s' := s.attempts[a], Next(s, Abort(a));
            && s'.log == s.log
            && (forall x :: s'.IsAborted(x) <==> x == a || s.IsAborted(x))
            && (forall k :: Get(s'.committed, k) == RestoredAt(s.committed, t.prior, t.written, k))
  {
  }

  /** One key after an abort: live, unless the restored value's writer has aborted. */
  lemma AbortLiveAt<K(!new)>(s: Store<K>, a: AttemptId, k: K)
    requires Tidy(s) && Superseded(s, k) && Live(s) && s.IsRunning(a) && !DirtyRestore(s, a)
    ensures var s' := Next(s, Abort(a));
            k in s'.committed ==> s'.committed[k] < |s'.log| && !s'.IsAborted(s'.Writer(s'.committed[k]))
  {
    AbortEffect(s, a);
    OwnValueIsLast(s, a, k);
    assert TidyAttempt(s, a);
    hide Next, Tidy, Superseded;
    var s' := Next(s, Abort(a));
    assert Get(s'.committed, k) == RestoredAt(s.committed, s.attempts[a].prior, s.attempts[a].written, k);
  }

  lemma AbortLive<K(!new)>(s: Store<K>, a: AttemptId)
    requires Inv(s) && Live(s) && s.IsRunning(a)
    ensures Live(Next(s, Abort(a))) <==> !DirtyRestore(s, a)
  {
    var t, s' := s.attempts[a], Next(s, Abort(a));
    if !DirtyRestore(s, a) {
      hide Next, Tidy, DirtyRestore;
      forall k | k in s'.committed ensures s'.committed[k] < |s'.log| && !s'.IsAborted(s'.Writer(s'.committed[k])) {
        AbortLiveAt(s, a, k);
      }
    } else {
      AbortEffect(s, a);
      hide Next, Tidy;
      var k :| k in t.prior && Get(s.committed, k) == Get(t.written, k) && k in t.written
               && t.prior[k].Some? && t.prior[k].value < |s.log| && s.IsAborted(s.Writer(t.prior[k].value));
      assert Get(s'.committed, k) == t.prior[k];
    }
  }

  // ---------------------------------------------------------------------------------------------
  // Not overwriting a running attempt's value is enough
  // ---------------------------------------------------------------------------------------------

  /** The step does not write over a value whose writer is another attempt still running. */
  ghost predicate Considerate<K(!new)>(s: Store<K>, e: Event<K>) {
    e.Put? && e.key in s.committed && s.committed[e.key] < |s.log| && s.Writer(s.committed[e.key]) != e.attempt ==>
      !s.IsRunning(s.Writer(s.committed[e.key]))
  }

  /** Running attempts still own what they wrote, over values of attempts that finished successfully. */
  ghost predicate Exclusive<K(!new)>(s: Store<K>) {
    forall a, k :: s.IsRunning(a) && k in s.attempts[a].written ==> Owns(s, a, k)
  }

  ghost predicate Owns<K(!new)>(s: Store<K>, a: AttemptId, k: K)
    requires s.IsRunning(a) && k in s.attempts[a].written
  {
    var t := s.attempts[a];
    && Get(s.committed, k) == Some(t.written[k])
    && (k in t.prior && t.prior[k].Some? ==> t.prior[k].value < |s.log| && Finished(s, s.Writer(t.prior[k].value)))
  }

  ghost predicate Finished<K>(s: Store<K>, a: AttemptId) {
    a in s.attempts && s.attempts[a].phase == Committed
  }

  lemma OwnsNext<K(!new)>(s: Store<K>, e: Event<K>, a: AttemptId, k: K)
    requires Inv(s) && Live(s) && Exclusive(s) && Enabled(s, e) && Considerate(s, e)
    requires Next(s, e).IsRunning(a) && k in Next(s, e).attempts[a].written
    ensures Owns(Next(s, e), a, k)
  {
    hide Superseded, Remembers;
    if e == Put(a, k) {
      OwnsPut(s, a, k);
    } else {
      OwnsOther(s, e, a, k);
    }
  }

  lemma OwnsPut<K(!new)>(s: Store<K>, a: AttemptId, k: K)
    requires Inv(s) && Live(s) && Exclusive(s) && s.IsRunning(a) && Considerate(s, Put(a, k))
    ensures Owns(Next(s, Put(a, k)), a, k)
  {
    assert Superseded(s, k);
    OwnValueIsLast(s, a, k);
    assert TidyAttempt(s, a);
    if k in s.attempts[a].written { assert Owns(s, a, k); }
    if k in s.committed { assert s.Writer(s.committed[k]) in s.attempts; }
    hide Inv, Tidy, Exclusive;
    OwnsPutTracked(s, a, k);
  }

  lemma OwnsPutTracked<K(!new)>(s: Store<K>, a: AttemptId, k: K)
    requires s.IsRunning(a) && Live(s) && Considerate(s, Put(a, k))
    requires k in s.committed ==> s.committed[k] < |s.log| && s.Writer(s.committed[k]) in s.attempts
    requires k in s.committed && s.Writer(s.committed[k]) == a ==> Get(s.attempts[a].written, k) == Some(s.committed[k])
    requires k in s.attempts[a].prior <==> k in s.attempts[a].written
    requires k in s.attempts[a].written ==> Owns(s, a, k)
    ensures Owns(Next(s, Put(a, k)), a, k)
  {
    hide Restored, RestoredAt, IsRestored;
  }

  /** A value its running writer owns is touched by no other step. */
  lemma OwnedValueKept<K(!new)>(s: Store<K>, e: Event<K>, a: AttemptId, k: K)
    requires Tidy(s) && Enabled(s, e) && Considerate(s, e) && e != Put(a, k) && e != Abort(a)
    requires s.IsRunning(a) && k in s.attempts[a].written && Get(s.committed, k) == Some(s.attempts[a].written[k])
    ensures Get(Next(s, e).committed, k) == Get(s.committed, k)
  {
    assert TidyAttempt(s, a);
    if e.Abort? {
      assert TidyAttempt(s, e.attempt);
      AbortEffect(s, e.attempt);
      hide Next, Tidy;
    }
  }

  lemma FinishedNext<K(!new)>(s: Store<K>, e: Event<K>, r: Instance)
    requires Enabled(s, e) && r < |s.log| && Finished(s, s.Writer(r))
    ensures r < |Next(s, e).log| && Finished(Next(s, e), Next(s, e).Writer(r))
  {
    hide RestoredAt, IsRestored, Remembered;
  }

  lemma OwnsOther<K(!new)>(s: Store<K>, e: Event<K>, a: AttemptId, k: K)
    requires Tidy(s) && Exclusive(s) && Enabled(s, e) && Considerate(s, e) && e != Put(a, k)
    requires Next(s, e).IsRunning(a) && k in Next(s, e).attempts[a].written
    ensures Owns(Next(s, e), a, k)
  {
    WasRunning(s, e, a, k);
    hide Next, Tidy;
    TrackerAt(s, e, a, k);
    assert Owns(s, a, k);
    OwnedValueKept(s, e, a, k);
    var t := s.attempts[a];
    if k in t.prior && t.prior[k].Some? { FinishedNext(s, e, t.prior[k].value); }
  }

  lemma WasRunning<K(!new)>(s: Store<K>, e: Event<K>, a: AttemptId, k: K)
    requires Enabled(s, e) && Next(s, e).IsRunning(a) && k in Next(s, e).attempts[a].written && e != Put(a, k)
    ensures s.IsRunning(a) && e != Abort(a)
  {
  }

  /** Exclusive attempts never bring back an aborted value. */
  lemma ExclusiveIsClean<K(!new)>(s: Store<K>, a: AttemptId)
    requires Exclusive(s) && s.IsRunning(a)
    ensures !DirtyRestore(s, a)
  {
    assert forall k :: k in s.attempts[a].written ==> Owns(s, a, k);
  }

  lemma ExclusiveNext<K(!new)>(s: Store<K>, e: Event<K>)
    requires Inv(s) && Live(s) && Exclusive(s) && Enabled(s, e) && Considerate(s, e)
    ensures Exclusive(Next(s, e)) && Live(Next(s, e)) && Inv(Next(s, e))
  {
    hide Inv, Next, Live, DirtyRestore;
    forall a, k | Next(s, e).IsRunning(a) && k in Next(s, e).attempts[a].written ensures Owns(Next(s, e), a, k) {
      OwnsNext(s, e, a, k);
    }
    if e.Abort? { ExclusiveIsClean(s, e.attempt); }
    LiveNext(s, e);
    InvNext(s, e);
  }
}
