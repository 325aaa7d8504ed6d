/**
 What merging the layers' lists by id keeps, in terms of the lists themselves: later layers win, and ids keep the
 order in which they first appear (effective-ruleset.ts:164, 186-195, 244-250).
 */
module LayerPrecedence {
  import opened MergeById

  /** Position `j` of list `i`. */
  predicate IsAt<T>(lists: seq<seq<T>>, i: int, j: int) { 0 <= i < |lists| && 0 <= j < |lists[i]| }

  predicate Earlier(i: int, j: int, i2: int, j2: int) { i < i2 || (i == i2 && j < j2) }

  /** No later list, and no later item of the same list, has the item's id. */
  ghost predicate LastWith<K, T(!new)>(lists: seq<seq<T>>, idOf: T -> K, i: int, j: int) {
    && IsAt(lists, i, j)
    && forall i2, j2 :: IsAt(lists, i2, j2) && Earlier(i, j, i2, j2) ==> idOf(lists[i2][j2]) != idOf(lists[i][j])
  }

  ghost predicate FirstWith<K, T(!new)>(lists: seq<seq<T>>, idOf: T -> K, i: int, j: int) {
    && IsAt(lists, i, j)
    && forall i2, j2 :: IsAt(lists, i2, j2) && Earlier(i2, j2, i, j) ==> idOf(lists[i2][j2]) != idOf(lists[i][j])
  }

  /** The merged list holds exactly the last item of each id, ordered by where the id appears first. */
  ghost predicate Layered<K(!new), T(!new)>(lists: seq<seq<T>>, idOf: T -> K, merged: seq<T>) {
    && (forall i, j :: LastWith(lists, idOf, i, j) ==> lists[i][j] in merged)
    && (forall x :: x in merged ==> exists i, j :: LastWith(lists, idOf, i, j) && lists[i][j] == x)
    && (forall p, q, i, j, i2, j2 ::
          0 <= p < q < |merged| && FirstWith(lists, idOf, i, j) && FirstWith(lists, idOf, i2, j2)
          && idOf(lists[i][j]) == idOf(merged[p]) && idOf(lists[i2][j2]) == idOf(merged[q]) ==>
          Earlier(i, j, i2, j2))
  }

  // ---------------------------------------------------------------------------------------------
  // Positions in the concatenation
  // ---------------------------------------------------------------------------------------------

  function Concat<T>(lists: seq<seq<T>>): seq<T> {
    if lists == [] then [] else Concat(lists[..|lists| - 1]) + lists[|lists| - 1]
  }

  function Offset<T>(lists: seq<seq<T>>, i: nat): nat
    requires i <= |lists|
  {
    if i == 0 then 0 else Offset(lists, i - 1) + |lists[i - 1]|
  }

  lemma {:induction false} OffsetOfPrefix<T>(lists: seq<seq<T>>, n: nat, i: nat)
    requires i <= n <= |lists|
    ensures Offset(lists[..n], i) == Offset(lists, i)
  {
    if i > 0 { OffsetOfPrefix(lists, n, i - 1); }
  }

  lemma {:induction false} ConcatLength<T>(lists: seq<seq<T>>)
    ensures |Concat(lists)| == Offset(lists, |lists|)
  {
    if lists != [] {
      var n := |lists| - 1;
      ConcatLength(lists[..n]);
      OffsetOfPrefix(lists, n, n);
    }
  }

  lemma {:induction false} ConcatAt<T>(lists: seq<seq<T>>, i: nat, j: nat)
    requires IsAt(lists, i, j)
    ensures Offset(lists, i) + j < |Concat(lists)| && Concat(lists)[Offset(lists, i) + j] == lists[i][j]
  {
    var n := |lists| - 1;
    ConcatLength(lists[..n]);
    OffsetOfPrefix(lists, n, n);
    if i < n {
      ConcatAt(lists[..n], i, j);
      OffsetOfPrefix(lists, n, i);
    }
  }

  lemma {:induction false} ConcatFrom<T>(lists: seq<seq<T>>, k: nat) returns (i: nat, j: nat)
    requires k < |Concat(lists)|
    ensures IsAt(lists, i, j) && k == Offset(lists, i) + j
  {
    var n := |lists| - 1;
    ConcatLength(lists[..n]);
    OffsetOfPrefix(lists, n, n);
    if k < |Concat(lists[..n])| {
      i, j := ConcatFrom(lists[..n], k);
      OffsetOfPrefix(lists, n, i);
    } else {
      i, j := n, k - |Concat(lists[..n])|;
    }
  }

  lemma {:induction false} OffsetGrows<T>(lists: seq<seq<T>>, i: nat, i2: nat)
    requires i < i2 <= |lists|
    ensures Offset(lists, i) + |lists[i]| <= Offset(lists, i2)
  {
    if i + 1 < i2 { OffsetGrows(lists, i, i2 - 1); }
  }

  /** Order of positions is order in the concatenation. */
  lemma OffsetOrder<T>(lists: seq<seq<T>>, i: nat, j: nat, i2: nat, j2: nat)
    requires IsAt(lists, i, j) && IsAt(lists, i2, j2)
    ensures Earlier(i, j, i2, j2) <==> Offset(lists, i) + j < Offset(lists, i2) + j2
  {
    if i < i2 { OffsetGrows(lists, i, i2); }
    if i2 < i { OffsetGrows(lists, i2, i); }
  }

  lemma LastIsLastAt<K(!new), T(!new)>(lists: seq<seq<T>>, idOf: T -> K, i: nat, j: nat)
    requires IsAt(lists, i, j)
    ensures var items, id := Concat(lists), idOf(lists[i][j]);
            Mentions(items, idOf, id) && (LastWith(lists, idOf, i, j) <==> LastAt(items, idOf, id) == Offset(lists, i) + j)
  {
    var items, k := Concat(lists), Offset(lists, i) + j;
    hide Concat, Offset;
    ConcatAt(lists, i, j);
    var id := idOf(lists[i][j]);
    assert idOf(items[k]) == id;
    if LastWith(lists, idOf, i, j) {
      var i2, j2 := ConcatFrom(lists, LastAt(items, idOf, id));
      ConcatAt(lists, i2, j2);
      OffsetOrder(lists, i, j, i2, j2);
    }
    if LastAt(items, idOf, id) == k {
      forall i2, j2 | IsAt(lists, i2, j2) && Earlier(i, j, i2, j2) ensures idOf(lists[i2][j2]) != id {
        ConcatAt(lists, i2, j2);
        OffsetOrder(lists, i, j, i2, j2);
      }
    }
  }

  lemma FirstIsFirstAt<K(!new), T(!new)>(lists: seq<seq<T>>, idOf: T -> K, i: nat, j: nat)
    requires FirstWith(lists, idOf, i, j)
    ensures var items, id := Concat(lists), idOf(lists[i][j]);
            Mentions(items, idOf, id) && FirstAt(items, idOf, id) == Offset(lists, i) + j
  {
    var items := Concat(lists);
    hide Concat, Offset;
    ConcatAt(lists, i, j);
    var id := idOf(lists[i][j]);
    assert idOf(items[Offset(lists, i) + j]) == id;
    var i2, j2 := ConcatFrom(lists, FirstAt(items, idOf, id));
    ConcatAt(lists, i2, j2);
    OffsetOrder(lists, i2, j2, i, j);
  }

  lemma LastIsKept<K(!new), T(!new)>(lists: seq<seq<T>>, idOf: T -> K, merged: seq<T>, i: nat, j: nat)
    requires IsMerge(Concat(lists), idOf, merged) && LastWith(lists, idOf, i, j)
    ensures lists[i][j] in merged
  {
    var items := Concat(lists);
    hide Concat, Offset, FirstAt, LastAt, FirstOrder;
    LastIsLastAt(lists, idOf, i, j);
    ConcatAt(lists, i, j);
    assert Mentions(merged, idOf, idOf(items[Offset(lists, i) + j]));
  }

  lemma KeptIsLast<K(!new), T(!new)>(lists: seq<seq<T>>, idOf: T -> K, merged: seq<T>, p: nat) returns (i: nat, j: nat)
    requires IsMerge(Concat(lists), idOf, merged) && p < |merged|
    ensures LastWith(lists, idOf, i, j) && lists[i][j] == merged[p]
  {
    var items := Concat(lists);
    hide Concat, Offset, FirstAt, LastAt, FirstOrder, Covers;
    i, j := ConcatFrom(lists, LastAt(items, idOf, idOf(merged[p])));
    ConcatAt(lists, i, j);
    LastIsLastAt(lists, idOf, i, j);
  }

  lemma KeptInOrder<K(!new), T(!new)>(lists: seq<seq<T>>, idOf: T -> K, merged: seq<T>, p: nat, q: nat, i: nat, j: nat, i2: nat, j2: nat)
    requires IsMerge(Concat(lists), idOf, merged) && p < q < |merged| && FirstWith(lists, idOf, i, j) && FirstWith(lists, idOf, i2, j2)
    requires idOf(lists[i][j]) == idOf(merged[p]) && idOf(lists[i2][j2]) == idOf(merged[q])
    ensures Earlier(i, j, i2, j2)
  {
    hide Concat, Offset, FirstAt, LastAt, LastWins, Covers;
    FirstIsFirstAt(lists, idOf, i, j);
    FirstIsFirstAt(lists, idOf, i2, j2);
    OffsetOrder(lists, i, j, i2, j2);
  }

  /** Merging the concatenated lists layers them. */
  lemma MergedIsLayered<K(!new), T(!new)>(lists: seq<seq<T>>, idOf: T -> K, merged: seq<T>)
    requires IsMerge(Concat(lists), idOf, merged)
    ensures Layered(lists, idOf, merged)
  {
    hide IsMerge, Concat;
    forall i, j | LastWith(lists, idOf, i, j) ensures lists[i][j] in merged {
      LastIsKept(lists, idOf, merged, i, j);
    }
    forall x | x in merged ensures exists i, j :: LastWith(lists, idOf, i, j) && lists[i][j] == x {
      var p :| 0 <= p < |merged| && merged[p] == x;
      var i, j := KeptIsLast(lists, idOf, merged, p);
    }
    forall p, q, i, j, i2, j2 |
        0 <= p < q < |merged| && FirstWith(lists, idOf, i, j) && FirstWith(lists, idOf, i2, j2)
        && idOf(lists[i][j]) == idOf(merged[p]) && idOf(lists[i2][j2]) == idOf(merged[q])
      ensures Earlier(i, j, i2, j2)
    {
      KeptInOrder(lists, idOf, merged, p, q, i, j, i2, j2);
    }
  }
}
