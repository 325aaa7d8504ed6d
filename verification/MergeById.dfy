/**
 Layering by id: the last edition wins wholesale, and an overridden item keeps the place its id
 first took (effective-ruleset.ts:186-195, 244-250).
 */
module MergeById {
  import opened Wrappers

  /** Some item carries `id`. */
  ghost predicate Mentions<K(!new), T(!new)>(items: seq<T>, idOf: T -> K, id: K) {
    exists i :: 0 <= i < |items| && idOf(items[i]) == id
  }

  ghost predicate UniqueIds<K(!new), T(!new)>(items: seq<T>, idOf: T -> K) {
    forall i, j :: 0 <= i < j < |items| ==> idOf(items[i]) != idOf(items[j])
  }

  /** The position at which `id` first occurs. */
  ghost function FirstAt<K(!new), T(!new)>(items: seq<T>, idOf: T -> K, id: K): (k: nat)
    requires Mentions(items, idOf, id)
    ensures k < |items| && idOf(items[k]) == id
    ensures forall j :: 0 <= j < k ==> idOf(items[j]) != id
  {
    var n := |items| - 1;
    if Mentions(items[..n], idOf, id) then FirstAt(items[..n], idOf, id) else n
  }

  /** The position at which `id` last occurs. */
  ghost function LastAt<K(!new), T(!new)>(items: seq<T>, idOf: T -> K, id: K): (k: nat)
    requires Mentions(items, idOf, id)
    ensures k < |items| && idOf(items[k]) == id
    ensures forall j :: k < j < |items| ==> idOf(items[j]) != id
  {
    var n := |items| - 1;
    if idOf(items[n]) == id then n else
    assert Mentions(items[..n], idOf, id) by {
      var i :| 0 <= i < |items| && idOf(items[i]) == id;
      assert items[..n][i] == items[i];
    }
    LastAt(items[..n], idOf, id)
  }

  /**
   What layering promises, without saying how: every id mentioned appears once, ids are in the order
   they first occurred, and each carries its last occurrence.
   */
  ghost predicate IsMerge<K(!new), T(!new)>(items: seq<T>, idOf: T -> K, merged: seq<T>) {
    && Covers(items, idOf, merged)
    && LastWins(items, idOf, merged)
    && FirstOrder(items, idOf, merged)
  }

  ghost predicate Covers<K(!new), T(!new)>(items: seq<T>, idOf: T -> K, merged: seq<T>) {
    forall i :: 0 <= i < |items| ==> Mentions(merged, idOf, idOf(items[i]))
  }

  ghost predicate LastWins<K(!new), T(!new)>(items: seq<T>, idOf: T -> K, merged: seq<T>) {
    forall i :: 0 <= i < |merged| ==>
      Mentions(items, idOf, idOf(merged[i])) &&
      merged[i] == items[LastAt(items, idOf, idOf(merged[i]))]
  }

  ghost predicate FirstOrder<K(!new), T(!new)>(items: seq<T>, idOf: T -> K, merged: seq<T>) {
    && (forall i :: 0 <= i < |merged| ==> Mentions(items, idOf, idOf(merged[i])))
    && (forall i, j :: 0 <= i < j < |merged| ==>
          FirstAt(items, idOf, idOf(merged[i])) < FirstAt(items, idOf, idOf(merged[j])))
  }

  // ---------------------------------------------------------------------------------------------
  // The loop, as a fold of `Map.prototype.set`
  // ---------------------------------------------------------------------------------------------

  /**
   A JavaScript `Map` whose values carry their own key, written as `[...map.values()]`: setting a
   key already present replaces the value in its place, a new key goes last.
   */
  function Put<K(==), T>(entries: seq<T>, item: T, idOf: T -> K): (r: seq<T>)
    ensures r != []
    decreases |entries|
  {
    if entries == [] then [item]
    else if idOf(entries[0]) == idOf(item) then [item] + entries[1..]
    else [entries[0]] + Put(entries[1..], item, idOf)
  }

  /** `entries` after setting each item in order. */
  function Load<K(==), T>(entries: seq<T>, items: seq<T>, idOf: T -> K): seq<T>
    decreases |items|
  {
    if items == [] then entries
    else Load(Put(entries, items[0], idOf), items[1..], idOf)
  }

  function Merged<K(==), T>(items: seq<T>, idOf: T -> K): seq<T> {
    Load([], items, idOf)
  }

  method MergeItems<K(==, !new), T(!new)>(items: seq<T>, idOf: T -> K) returns (merged: seq<T>)
    ensures merged == Merged(items, idOf)
    ensures IsMerge(items, idOf, merged)
  {
    var byId: seq<T> := [];
    for i := 0 to |items|
      invariant Load(byId, items[i..], idOf) == Merged(items, idOf)
    {
      byId := Put(byId, items[i], idOf);
      assert items[i..][1..] == items[i + 1..];
    }
    assert items[|items|..] == [];
    merged := byId;
    MergedIsMerge(items, idOf);
  }

  // ---------------------------------------------------------------------------------------------
  // The fold meets the specification, and the specification leaves no choice
  // ---------------------------------------------------------------------------------------------

  lemma MentionsTail<K(!new), T(!new)>(entries: seq<T>, idOf: T -> K, id: K)
    requires entries != []
    ensures Mentions(entries, idOf, id) <==> idOf(entries[0]) == id || Mentions(entries[1..], idOf, id)
  {
    var tail := entries[1..];
    if Mentions(tail, idOf, id) {
      var i :| 0 <= i < |tail| && idOf(tail[i]) == id;
      assert entries[i + 1] == tail[i];
    }
    if i :| 0 < i < |entries| && idOf(entries[i]) == id {
      assert tail[i - 1] == entries[i];
    }
  }

  /** What one `Put` does, position by position. */
  lemma {:induction false} PutAt<K(!new), T(!new)>(entries: seq<T>, item: T, idOf: T -> K)
    requires UniqueIds(entries, idOf)
    ensures var r := Put(entries, item, idOf);
            && |entries| <= |r|
            && (forall i :: 0 <= i < |entries| ==>
                  r[i] == if idOf(entries[i]) == idOf(item) then item else entries[i])
            && (if Mentions(entries, idOf, idOf(item)) then |r| == |entries|
                else |r| == |entries| + 1 && r[|entries|] == item)
    decreases |entries|
  {
    if entries != [] {
      var tail := entries[1..];
      MentionsTail(entries, idOf, idOf(item));
      hide Mentions;
      assert forall i :: 0 < i < |entries| ==> entries[i] == tail[i - 1];
      if idOf(entries[0]) != idOf(item) {
        PutAt(tail, item, idOf);
      }
    }
  }

  lemma OccurrenceSnoc<K(!new), T(!new)>(items: seq<T>, x: T, idOf: T -> K, id: K)
    ensures Mentions(items + [x], idOf, id) <==> Mentions(items, idOf, id) || idOf(x) == id
    ensures Mentions(items, idOf, id) ==>
              FirstAt(items + [x], idOf, id) == FirstAt(items, idOf, id)
    ensures !Mentions(items, idOf, id) && idOf(x) == id ==> FirstAt(items + [x], idOf, id) == |items|
    ensures idOf(x) == id ==> LastAt(items + [x], idOf, id) == |items|
    ensures Mentions(items, idOf, id) && idOf(x) != id ==>
              LastAt(items + [x], idOf, id) == LastAt(items, idOf, id)
  {
    var all := items + [x];
    assert all[..|items|] == items;
    if Mentions(items, idOf, id) {
      var i :| 0 <= i < |items| && idOf(items[i]) == id;
      assert idOf(all[i]) == id;
    } else if idOf(x) == id {
      assert idOf(all[|items|]) == id;
    }
  }

  lemma CoversSnoc<K(!new), T(!new)>(items: seq<T>, x: T, idOf: T -> K, merged: seq<T>)
    requires UniqueIds(merged, idOf) && Covers(items, idOf, merged)
    ensures Covers(items + [x], idOf, Put(merged, x, idOf))
  {
    var all := items + [x];
    forall i | 0 <= i < |all| ensures Mentions(Put(merged, x, idOf), idOf, idOf(all[i])) {
      assert i < |items| ==> all[i] == items[i];
      PutMentions(merged, x, idOf, idOf(all[i]));
    }
  }

  lemma LastWinsSnoc<K(!new), T(!new)>(items: seq<T>, x: T, idOf: T -> K, merged: seq<T>)
    requires UniqueIds(merged, idOf) && LastWins(items, idOf, merged)
    ensures LastWins(items + [x], idOf, Put(merged, x, idOf))
  {
    hide Put, LastAt;
    var all, r := items + [x], Put(merged, x, idOf);
    PutAt(merged, x, idOf);
    forall i | 0 <= i < |r|
      ensures Mentions(all, idOf, idOf(r[i])) && r[i] == all[LastAt(all, idOf, idOf(r[i]))]
    {
      OccurrenceSnoc(items, x, idOf, idOf(r[i]));
    }
  }

  lemma CoversMentioned<K(!new), T(!new)>(items: seq<T>, idOf: T -> K, merged: seq<T>, id: K)
    requires Covers(items, idOf, merged)
    ensures Mentions(items, idOf, id) ==> Mentions(merged, idOf, id)
  {
    if Mentions(items, idOf, id) {
      var k :| 0 <= k < |items| && idOf(items[k]) == id;
      assert Mentions(merged, idOf, idOf(items[k]));
    }
  }

  /** Position `j` after a `Put` carries an id that was there, or the new one. */
  lemma PutIdAt<K(!new), T(!new)>(merged: seq<T>, x: T, idOf: T -> K, j: nat)
    requires UniqueIds(merged, idOf) && j < |Put(merged, x, idOf)|
    ensures |merged| <= |Put(merged, x, idOf)| <= |merged| + 1
    ensures j < |merged| ==> idOf(Put(merged, x, idOf)[j]) == idOf(merged[j])
    ensures j == |merged| ==> idOf(Put(merged, x, idOf)[j]) == idOf(x) && !Mentions(merged, idOf, idOf(x))
  {
    hide Put;
    PutAt(merged, x, idOf);
    hide Mentions;
  }

  lemma FirstOrderPair<K(!new), T(!new)>(items: seq<T>, x: T, idOf: T -> K, merged: seq<T>, i: nat, j: nat)
    requires UniqueIds(merged, idOf) && Covers(items, idOf, merged) && FirstOrder(items, idOf, merged)
    requires i < j < |Put(merged, x, idOf)|
    ensures var r := Put(merged, x, idOf);
            && i < |merged| && Mentions(items + [x], idOf, idOf(r[i])) && Mentions(items + [x], idOf, idOf(r[j]))
            && FirstAt(items + [x], idOf, idOf(r[i])) < FirstAt(items + [x], idOf, idOf(r[j]))
  {
    var r := Put(merged, x, idOf);
    hide Put, FirstAt, Mentions, UniqueIds, Covers;
    PutIdAt(merged, x, idOf, i);
    PutIdAt(merged, x, idOf, j);
    CoversMentioned(items, idOf, merged, idOf(x));
    assert Mentions(items, idOf, idOf(merged[i]));
    if j < |merged| { assert FirstAt(items, idOf, idOf(merged[i])) < FirstAt(items, idOf, idOf(merged[j])); }
    hide FirstOrder;
    OccurrenceSnoc(items, x, idOf, idOf(r[i]));
    OccurrenceSnoc(items, x, idOf, idOf(r[j]));
  }

  lemma FirstOrderSnoc<K(!new), T(!new)>(items: seq<T>, x: T, idOf: T -> K, merged: seq<T>)
    requires UniqueIds(merged, idOf) && Covers(items, idOf, merged) && FirstOrder(items, idOf, merged)
    ensures FirstOrder(items + [x], idOf, Put(merged, x, idOf))
  {
    var all, r := items + [x], Put(merged, x, idOf);
    hide Put, FirstAt, Mentions, Covers, UniqueIds;
    forall i | 0 <= i < |r| ensures Mentions(all, idOf, idOf(r[i])) {
      PutIdAt(merged, x, idOf, i);
      if i < |merged| { assert Mentions(items, idOf, idOf(merged[i])); }
      OccurrenceSnoc(items, x, idOf, idOf(r[i]));
    }
    forall i, j | 0 <= i < j < |r| ensures FirstAt(all, idOf, idOf(r[i])) < FirstAt(all, idOf, idOf(r[j])) {
      FirstOrderPair(items, x, idOf, merged, i, j);
    }
  }

  lemma IsMergeSnoc<K(!new), T(!new)>(items: seq<T>, x: T, idOf: T -> K, merged: seq<T>)
    requires IsMerge(items, idOf, merged)
    ensures IsMerge(items + [x], idOf, Put(merged, x, idOf))
  {
    FirstOrderUnique(items, idOf, merged);
    hide Covers, LastWins, FirstOrder, Put, UniqueIds;
    CoversSnoc(items, x, idOf, merged);
    LastWinsSnoc(items, x, idOf, merged);
    FirstOrderSnoc(items, x, idOf, merged);
  }

  lemma FirstOrderUnique<K(!new), T(!new)>(items: seq<T>, idOf: T -> K, merged: seq<T>)
    requires FirstOrder(items, idOf, merged)
    ensures UniqueIds(merged, idOf)
  {
  }

  lemma {:induction false} LoadIsMerge<K(!new), T(!new)>(done: seq<T>, acc: seq<T>, rest: seq<T>, idOf: T -> K)
    requires IsMerge(done, idOf, acc)
    ensures IsMerge(done + rest, idOf, Load(acc, rest, idOf))
    decreases |rest|
  {
    hide Put, IsMerge;
    if rest == [] {
      assert done + rest == done;
    } else {
      IsMergeSnoc(done, rest[0], idOf, acc);
      LoadIsMerge(done + [rest[0]], Put(acc, rest[0], idOf), rest[1..], idOf);
      assert done + [rest[0]] + rest[1..] == done + rest;
    }
  }

  lemma MergedIsMerge<K(!new), T(!new)>(items: seq<T>, idOf: T -> K)
    ensures IsMerge(items, idOf, Merged(items, idOf))
    ensures UniqueIds(Merged(items, idOf), idOf)
  {
    LoadIsMerge([], [], items, idOf);
    assert [] + items == items;
  }

  /** Strictly increasing sequences with the same elements are equal. */
  lemma {:induction false} IncreasingUnique(p: seq<nat>, q: seq<nat>)
    requires forall i, j :: 0 <= i < j < |p| ==> p[i] < p[j]
    requires forall i, j :: 0 <= i < j < |q| ==> q[i] < q[j]
    requires forall x :: x in p <==> x in q
    ensures p == q
  {
    ghost var first := if q == [] then 0 else q[0];
    assert q != [] ==> first in q;
    if p != [] {
      assert p[0] in p;
      var m, n := |p| - 1, |q| - 1;
      assert p[m] in q && q[n] in p;
      forall x ensures x in p[..m] <==> x in q[..n] {
        assert x in p <==> x in p[..m] || x == p[m];
        assert x in q <==> x in q[..n] || x == q[n];
      }
      IncreasingUnique(p[..m], q[..n]);
    }
  }

  lemma FirstPositions<K(!new), T(!new)>(items: seq<T>, idOf: T -> K, merged: seq<T>) returns (p: seq<nat>)
    requires IsMerge(items, idOf, merged)
    ensures |p| == |merged|
    ensures forall i :: 0 <= i < |p| ==>
              Mentions(items, idOf, idOf(merged[i])) && p[i] == FirstAt(items, idOf, idOf(merged[i]))
    ensures forall i, j :: 0 <= i < j < |p| ==> p[i] < p[j]
    ensures forall x :: x in p <==>
              0 <= x < |items| && Mentions(items, idOf, idOf(items[x])) && FirstAt(items, idOf, idOf(items[x])) == x
  {
    p := seq(|merged|, i requires 0 <= i < |merged| => FirstAt(items, idOf, idOf(merged[i])));
    forall x | 0 <= x < |items| && Mentions(items, idOf, idOf(items[x])) && FirstAt(items, idOf, idOf(items[x])) == x
      ensures x in p
    {
      var i :| 0 <= i < |merged| && idOf(merged[i]) == idOf(items[x]);
      assert p[i] == x;
    }
  }

  /** The clauses of `IsMerge` determine the result. */
  lemma MergeUnique<K(!new), T(!new)>(items: seq<T>, idOf: T -> K, a: seq<T>, b: seq<T>)
    requires IsMerge(items, idOf, a) && IsMerge(items, idOf, b)
    ensures a == b
  {
    var p := FirstPositions(items, idOf, a);
    var q := FirstPositions(items, idOf, b);
    IncreasingUnique(p, q);
    forall i | 0 <= i < |a| ensures a[i] == b[i] {
      assert idOf(a[i]) == idOf(items[p[i]]) == idOf(b[i]);
    }
  }

  // ---------------------------------------------------------------------------------------------
  // Layering is associative
  // ---------------------------------------------------------------------------------------------

  lemma {:induction false} LoadAppend<K(!new), T(!new)>(n: seq<T>, xs: seq<T>, ys: seq<T>, idOf: T -> K)
    ensures Load(n, xs + ys, idOf) == Load(Load(n, xs, idOf), ys, idOf)
    decreases |xs|
  {
    hide Put;
    if xs == [] {
      assert xs + ys == ys;
    } else {
      LoadAppend(Put(n, xs[0], idOf), xs[1..], ys, idOf);
      assert (xs + ys)[1..] == xs[1..] + ys;
    }
  }

  /** A later set of the same key wins. */
  lemma {:induction false} PutTwice<K(!new), T(!new)>(n: seq<T>, x: T, y: T, idOf: T -> K)
    requires idOf(x) == idOf(y)
    ensures Put(Put(n, x, idOf), y, idOf) == Put(n, y, idOf)
    decreases |n|
  {
    if n != [] {
      var r := Put(n, x, idOf);
      if idOf(n[0]) == idOf(x) {
        assert r[1..] == n[1..];
      } else {
        assert r[1..] == Put(n[1..], x, idOf);
        PutTwice(n[1..], x, y, idOf);
      }
    }
  }

  /** Sets of different keys commute once one of the keys is present. */
  lemma {:induction false} PutCommutes<K(!new), T(!new)>(n: seq<T>, z: T, y: T, idOf: T -> K)
    requires idOf(z) != idOf(y) && Mentions(n, idOf, idOf(y))
    ensures Put(Put(n, z, idOf), y, idOf) == Put(Put(n, y, idOf), z, idOf)
    decreases |n|
  {
    var nz, ny := Put(n, z, idOf), Put(n, y, idOf);
    if idOf(n[0]) == idOf(y) {
      assert nz[1..] == Put(n[1..], z, idOf) && ny[1..] == n[1..];
    } else if idOf(n[0]) == idOf(z) {
      assert nz[1..] == n[1..] && ny[1..] == Put(n[1..], y, idOf);
    } else {
      assert nz[1..] == Put(n[1..], z, idOf) && ny[1..] == Put(n[1..], y, idOf);
      var i :| 0 <= i < |n| && idOf(n[i]) == idOf(y);
      assert n[1..][i - 1] == n[i];
      PutCommutes(n[1..], z, y, idOf);
    }
  }

  lemma {:induction false} PutMentions<K(!new), T(!new)>(n: seq<T>, x: T, idOf: T -> K, id: K)
    requires idOf(x) == id || Mentions(n, idOf, id)
    ensures Mentions(Put(n, x, idOf), idOf, id)
    decreases |n|
  {
    var r := Put(n, x, idOf);
    if n == [] || idOf(n[0]) == idOf(x) {
      assert r[0] == x;
      if idOf(x) != id {
        var i :| 0 <= i < |n| && idOf(n[i]) == id;
        assert r[i] == n[i];
      }
    } else if idOf(n[0]) == id {
      assert r[0] == n[0];
    } else {
      if idOf(x) != id {
        var i :| 0 <= i < |n| && idOf(n[i]) == id;
        assert n[1..][i - 1] == n[i];
      }
      PutMentions(n[1..], x, idOf, id);
      var i :| 0 <= i < |Put(n[1..], x, idOf)| && idOf(Put(n[1..], x, idOf)[i]) == id;
      assert r[i + 1] == Put(n[1..], x, idOf)[i];
    }
  }

  /** A set of a key already present may be moved past later sets of other keys. */
  lemma {:induction false} PutThenLoad<K(!new), T(!new)>(n: seq<T>, y: T, rest: seq<T>, idOf: T -> K)
    requires Mentions(n, idOf, idOf(y)) && !Mentions(rest, idOf, idOf(y))
    ensures Load(Put(n, y, idOf), rest, idOf) == Put(Load(n, rest, idOf), y, idOf)
    decreases |rest|
  {
    if rest != [] {
      assert idOf(rest[0]) != idOf(y);
      PutCommutes(n, rest[0], y, idOf);
      PutMentions(n, rest[0], idOf, idOf(y));
      assert forall i :: 0 <= i < |rest[1..]| ==> rest[1..][i] == rest[i + 1];
      PutThenLoad(Put(n, rest[0], idOf), y, rest[1..], idOf);
    }
  }

  lemma {:induction false} LoadPut<K(!new), T(!new)>(n: seq<T>, m: seq<T>, y: T, idOf: T -> K)
    requires UniqueIds(m, idOf)
    ensures Load(n, Put(m, y, idOf), idOf) == Put(Load(n, m, idOf), y, idOf)
    decreases |m|
  {
    if m == [] {
      assert Put(m, y, idOf)[1..] == [];
    } else {
      var r, tail := Put(m, y, idOf), m[1..];
      assert forall i :: 0 <= i < |tail| ==> tail[i] == m[i + 1];
      var n' := Put(n, m[0], idOf);
      if idOf(m[0]) == idOf(y) {
        assert r[0] == y && r[1..] == tail;
        PutTwice(n, m[0], y, idOf);
        PutMentions(n, m[0], idOf, idOf(y));
        PutThenLoad(n', y, tail, idOf);
      } else {
        assert r[0] == m[0] && r[1..] == Put(tail, y, idOf);
        LoadPut(n', tail, y, idOf);
      }
    }
  }

  /** Layering what a block merges to is layering the block. */
  lemma {:induction false} LoadBlock<K(!new), T(!new)>(n: seq<T>, ys: seq<T>, idOf: T -> K)
    ensures Load(n, Merged(ys, idOf), idOf) == Load(n, ys, idOf)
    decreases |ys|
  {
    if ys != [] {
      var k := |ys| - 1;
      var init, last := ys[..k], ys[k];
      assert ys == init + [last];
      LoadBlock(n, init, idOf);
      LoadAppend([], init, [last], idOf);
      LoadAppend(n, init, [last], idOf);
      MergedIsMerge(init, idOf);
      LoadPut(n, Merged(init, idOf), last, idOf);
    }
  }

  /** Merging a merged prefix, or a merged suffix, with the rest equals merging everything at once. */
  lemma MergeAssociative<K(!new), T(!new)>(xs: seq<T>, ys: seq<T>, idOf: T -> K)
    ensures Merged(Merged(xs, idOf) + ys, idOf) == Merged(xs + ys, idOf)
    ensures Merged(xs + Merged(ys, idOf), idOf) == Merged(xs + ys, idOf)
  {
    LoadAppend([], xs, ys, idOf);
    LoadAppend([], Merged(xs, idOf), ys, idOf);
    LoadAppend([], xs, Merged(ys, idOf), idOf);
    LoadBlock([], xs, idOf);
    LoadBlock(Merged(xs, idOf), ys, idOf);
  }

  // ---------------------------------------------------------------------------------------------
  // Lookups
  // ---------------------------------------------------------------------------------------------

  /** `items.find((x) => x.id === id)` */
  function Find<K(==), T>(items: seq<T>, idOf: T -> K, id: K): Option<T>
    decreases |items|
  {
    if items == [] then None
    else if idOf(items[0]) == id then Some(items[0])
    else Find(items[1..], idOf, id)
  }

  /** `new Map(items.map((x) => [x.id, x]))` */
  function ById<K(==), T>(items: seq<T>, idOf: T -> K): map<K, T>
    decreases |items|
  {
    if items == [] then map[]
    else
      var n := |items| - 1;
      ById(items[..n], idOf)[idOf(items[n]) := items[n]]
  }

  lemma {:induction false} FindSpec<K(!new), T(!new)>(items: seq<T>, idOf: T -> K, id: K)
    ensures var r := Find(items, idOf, id);
            if Mentions(items, idOf, id) then r == Some(items[FirstAt(items, idOf, id)]) else r == None
    decreases |items|
  {
    if items != [] {
      assert items[0] == items[0];
      if idOf(items[0]) == id {
        assert Mentions(items, idOf, id);
      } else {
        FindSpec(items[1..], idOf, id);
        assert forall i :: 0 <= i < |items[1..]| ==> items[1..][i] == items[i + 1];
        if Mentions(items, idOf, id) {
          var f := FirstAt(items, idOf, id);
          assert items[1..][f - 1] == items[f];
        }
      }
    }
  }

  /** With unique ids the lookup finds exactly what is listed. */
  lemma FoundIffListed<K(!new), T(!new)>(items: seq<T>, idOf: T -> K, id: K, x: T)
    requires UniqueIds(items, idOf)
    ensures Find(items, idOf, id) == Some(x) <==> x in items && idOf(x) == id
  {
    hide Find;
    FindSpec(items, idOf, id);
    if x in items && idOf(x) == id {
      var i :| 0 <= i < |items| && items[i] == x;
      assert Mentions(items, idOf, id);
      assert FirstAt(items, idOf, id) == i;
    }
  }

  lemma {:induction false} ByIdSpec<K(!new), T(!new)>(items: seq<T>, idOf: T -> K, id: K)
    ensures Get(ById(items, idOf), id) ==
            if Mentions(items, idOf, id) then Some(items[LastAt(items, idOf, id)]) else None
    decreases |items|
  {
    if items != [] {
      var n := |items| - 1;
      ByIdSpec(items[..n], idOf, id);
      assert items == items[..n] + [items[n]];
      OccurrenceSnoc(items[..n], items[n], idOf, id);
    }
  }

  /** On a merged collection the linear lookup and the keyed one agree. */
  lemma LookupsAgree<K(!new), T(!new)>(items: seq<T>, idOf: T -> K, id: K)
    requires UniqueIds(items, idOf)
    ensures Find(items, idOf, id) == Get(ById(items, idOf), id)
  {
    hide Find, ById;
    FindSpec(items, idOf, id);
    ByIdSpec(items, idOf, id);
    if Mentions(items, idOf, id) {
      var f, l := FirstAt(items, idOf, id), LastAt(items, idOf, id);
      assert f == l;
    }
  }
}
