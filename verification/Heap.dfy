/**
 The binary min-heap that the nonce index, the price list and the dial history
 keep in a slice.  `key` orders the elements; every operation returns the new
 slice, a permutation of what it was given, with the heap order restored.
 */
module Heap {

  function Parent(i: int): (p: int)
    requires 0 < i
    ensures 0 <= p < i && (i == 2 * p + 1 || i == 2 * p + 2)
  {
    (i - 1) / 2
  }

  /** Element `i` is not smaller than its parent. */
  ghost predicate Le<T>(h: seq<T>, key: T -> int, i: int)
    requires 0 < i < |h|
  {
    key(h[Parent(i)]) <= key(h[i])
  }

  ghost predicate IsHeap<T>(h: seq<T>, key: T -> int) {
    HeapFrom(h, key, 0)
  }

  /** The heap order holds below every parent at or after `s`. */
  ghost predicate HeapFrom<T>(h: seq<T>, key: T -> int, s: int) {
    forall i {:trigger Le(h, key, i)} :: 0 < i < |h| && s <= Parent(i) ==> Le(h, key, i)
  }

  lemma {:induction false} RootIsLeast<T>(h: seq<T>, key: T -> int, i: nat)
    requires IsHeap(h, key) && i < |h|
    ensures key(h[0]) <= key(h[i])
    decreases i
  {
    if i > 0 {
      assert Le(h, key, i);
      RootIsLeast(h, key, Parent(i));
    }
  }

  /** The heap order holds from `s` on, except possibly between `i` and its parent and between `i` and its children. */
  ghost predicate HoleAt<T>(h: seq<T>, key: T -> int, s: int, i: int) {
    forall k {:trigger Le(h, key, k)} :: 0 < k < |h| && s <= Parent(k) && k != i && Parent(k) != i ==> Le(h, key, k)
  }

  /** The parent of `i` is at most the child `k` of `i`. */
  ghost predicate Skips<T>(h: seq<T>, key: T -> int, s: int, i: int, k: int) {
    0 < i && k < |h| && s <= Parent(i) && i < k ==> key(h[Parent(i)]) <= key(h[k])
  }

  ghost predicate Almost<T>(h: seq<T>, key: T -> int, s: int, i: int) {
    0 <= s <= i < |h| && HoleAt(h, key, s, i) && Skips(h, key, s, i, 2 * i + 1) && Skips(h, key, s, i, 2 * i + 2)
  }

  function Swap<T>(h: seq<T>, i: nat, j: nat): (r: seq<T>)
    requires i < |h| && j < |h|
    ensures |r| == |h| && multiset(r) == multiset(h)
    ensures r[i] == h[j] && r[j] == h[i] && forall k :: 0 <= k < |h| && k != i && k != j ==> r[k] == h[k]
  {
    h[i := h[j]][j := h[i]]
  }

  /** Below `i` the order holds; `i` itself may still be smaller than its parent. */
  ghost predicate Sunk<T>(h: seq<T>, key: T -> int, s: int, i: int) {
    0 <= s <= i < |h| && forall k {:trigger Le(h, key, k)} :: 0 < k < |h| && s <= Parent(k) && k != i ==> Le(h, key, k)
  }

  /** One swap with the smaller child moves the hole down and settles the position it leaves. */
  lemma DownStep<T>(h: seq<T>, key: T -> int, s: nat, i: nat, j: nat)
    requires Almost(h, key, s, i) && i < j < |h| && Parent(j) == i && key(h[j]) < key(h[i])
    requires forall k :: i < k < |h| && Parent(k) == i ==> key(h[j]) <= key(h[k])
    ensures Almost(Swap(h, i, j), key, s, j)
    ensures 0 < i && s <= Parent(i) ==> Le(Swap(h, i, j), key, i)
    ensures Le(Swap(h, i, j), key, j)
  {
    var r := Swap(h, i, j);
    forall k | 0 < k < |r| && s <= Parent(k) && k != j && Parent(k) != j ensures Le(r, key, k) {
      if k != i && Parent(k) != i { assert Le(h, key, k); }
    }
    if 2 * j + 1 < |h| { assert Le(h, key, 2 * j + 1); }
    if 2 * j + 2 < |h| { assert Le(h, key, 2 * j + 2); }
  }

  lemma Settled<T>(h: seq<T>, key: T -> int, s: nat, i0: nat, i: nat)
    requires Almost(h, key, s, i) && s <= i0 <= i
    requires i > i0 ==> Le(h, key, i)
    requires forall k :: i < k < |h| && Parent(k) == i ==> key(h[i]) <= key(h[k])
    ensures Sunk(h, key, s, i0)
  {
    forall k | 0 < k < |h| && s <= Parent(k) && k != i0 ensures Le(h, key, k) {
      if k != i && Parent(k) != i { assert Le(h, key, k); }
    }
  }

  /** The least child of `i` if it is smaller than `i`, and `i` itself otherwise. */
  method SmallestChild<T>(h: seq<T>, key: T -> int, i: nat) returns (j: nat)
    requires i < |h|
    ensures j == i || (i < j < |h| && Parent(j) == i && key(h[j]) < key(h[i]))
    ensures forall k :: i < k < |h| && Parent(k) == i ==> key(h[j]) <= key(h[k])
  {
    j := 2 * i + 1;
    if j >= |h| { return i; }
    if j + 1 < |h| && key(h[j]) >= key(h[j + 1]) { j := j + 1; }
    if key(h[j]) >= key(h[i]) { return i; }
  }

  /** Moves the element at `i0` down until both its children are at least as large. */
  method Down<T>(h0: seq<T>, key: T -> int, i0: nat, ghost s: nat) returns (h: seq<T>)
    requires Almost(h0, key, s, i0)
    ensures multiset(h) == multiset(h0) && |h| == |h0|
    ensures Sunk(h, key, s, i0)
    ensures h == h0 || (0 < i0 && s <= Parent(i0) ==> Le(h, key, i0))
  {
    h := h0;
    var i := i0;
    while true
      invariant i0 <= i < |h| == |h0| && multiset(h) == multiset(h0)
      invariant Almost(h, key, s, i)
      invariant i == i0 ==> h == h0
      invariant i > i0 ==> Le(h, key, i) && (0 < i0 && s <= Parent(i0) ==> Le(h, key, i0))
      decreases |h| - i
    {
      var j := SmallestChild(h, key, i);
      if j == i {
        Settled(h, key, s, i0, i);
        break;
      }
      DownStep(h, key, s, i, j);
      ghost var was := h;
      h := Swap(h, i, j);
      if 0 < i0 && s <= Parent(i0) && i != i0 { assert Le(was, key, i0); }
      i := j;
    }
  }

  /** One swap with a larger parent moves the hole up. */
  lemma UpStep<T>(h: seq<T>, key: T -> int, j: nat)
    requires 0 < j && Sunk(h, key, 0, j) && Almost(h, key, 0, j) && key(h[j]) < key(h[Parent(j)])
    ensures var r := Swap(h, j, Parent(j)); Sunk(r, key, 0, Parent(j)) && Almost(r, key, 0, Parent(j))
  {
    var i := Parent(j);
    var r := Swap(h, j, i);
    forall k | 0 < k < |r| && k != i ensures Le(r, key, k) {
      if k != j {
        assert Le(h, key, k);
        if i > 0 { assert Le(h, key, i); }
      }
    }
    if i > 0 {
      assert Le(h, key, i);
      forall k | i < k < |h| && Parent(k) == i ensures key(r[Parent(i)]) <= key(r[k]) {
        if k != j { assert Le(h, key, k); }
      }
    }
  }

  /** Moves the element at `j0` up until its parent is at most as large. */
  method Up<T>(h0: seq<T>, key: T -> int, j0: nat) returns (h: seq<T>)
    requires Sunk(h0, key, 0, j0) && Almost(h0, key, 0, j0)
    ensures multiset(h) == multiset(h0) && |h| == |h0|
    ensures IsHeap(h, key)
  {
    h := h0;
    var j := j0;
    while j > 0 && key(h[j]) < key(h[Parent(j)])
      invariant j < |h| == |h0| && multiset(h) == multiset(h0)
      invariant Sunk(h, key, 0, j) && Almost(h, key, 0, j)
      decreases j
    {
      UpStep(h, key, j);
      h, j := Swap(h, j, Parent(j)), Parent(j);
    }
    forall k | 0 < k < |h| ensures Le(h, key, k) {
      if k != j { assert Le(h, key, k); }
    }
  }

  method Push<T>(h: seq<T>, key: T -> int, x: T) returns (r: seq<T>)
    requires IsHeap(h, key)
    ensures IsHeap(r, key) && multiset(r) == multiset(h) + multiset{x}
  {
    var g := h + [x];
    forall k | 0 < k < |g| && k != |h| ensures Le(g, key, k) {
      assert Le(h, key, k);
    }
    r := Up(g, key, |h|);
  }

  /** Removes the least element. */
  method Pop<T>(h: seq<T>, key: T -> int) returns (x: T, r: seq<T>)
    requires IsHeap(h, key) && |h| > 0
    ensures x == h[0] && (forall i :: 0 <= i < |h| ==> key(x) <= key(h[i]))
    ensures IsHeap(r, key) && multiset(h) == multiset(r) + multiset{x}
  {
    x := h[0];
    var n := |h| - 1;
    forall i | 0 <= i < |h| ensures key(x) <= key(h[i]) { RootIsLeast(h, key, i); }
    var g := Swap(h, 0, n);
    assert g == g[..n] + [g[n]] && g[n] == x;
    r := g[..n];
    if n > 0 {
      forall k | 0 < k < n && Parent(k) != 0 ensures Le(r, key, k) {
        assert Le(h, key, k);
      }
      r := Down(r, key, 0, 0);
    }
  }

  /** Removes the element at position `i`. */
  method Remove<T>(h: seq<T>, key: T -> int, i: nat) returns (r: seq<T>)
    requires IsHeap(h, key) && i < |h|
    ensures IsHeap(r, key) && multiset(h) == multiset(r) + multiset{h[i]}
  {
    var n := |h| - 1;
    var g := Swap(h, i, n);
    assert g == g[..n] + [g[n]] && g[n] == h[i];
    r := g[..n];
    if n != i {
      HoleAfterRemoval(h, key, i, r);
      ghost var was := r;
      r := Down(r, key, i, 0);
      if r != was && 0 < i {
        assert Le(r, key, i);
        forall k | i < k < |r| && Parent(k) == i ensures key(r[Parent(i)]) <= key(r[k]) { assert Le(r, key, k); }
      }
      r := Up(r, key, i);
    } else {
      forall k | 0 < k < n ensures Le(r, key, k) { assert Le(h, key, k); }
    }
  }

  lemma HoleAfterRemoval<T>(h: seq<T>, key: T -> int, i: nat, r: seq<T>)
    requires IsHeap(h, key) && i < |h| - 1 && r == Swap(h, i, |h| - 1)[..|h| - 1]
    ensures Almost(r, key, 0, i)
  {
    forall k | 0 < k < |r| && k != i && Parent(k) != i ensures Le(r, key, k) { assert Le(h, key, k); }
    if i > 0 {
      assert Le(h, key, i);
      forall k | i < k < |r| && Parent(k) == i ensures key(r[Parent(i)]) <= key(r[k]) { assert Le(h, key, k); }
    }
  }

  /** Establishes the heap order on an arbitrary slice. */
  method Init<T>(h: seq<T>, key: T -> int) returns (r: seq<T>)
    ensures IsHeap(r, key) && multiset(r) == multiset(h)
  {
    r := h;
    var i := |h| / 2 - 1;
    while i >= 0
      invariant -1 <= i < |h| == |r| && multiset(r) == multiset(h)
      invariant HeapFrom(r, key, i + 1)
      decreases i
    {
      r := Down(r, key, i, i);
      i := i - 1;
    }
  }

  ghost predicate SortedBy<T>(s: seq<T>, key: T -> int) {
    forall i, j :: 0 <= i < j < |s| ==> key(s[i]) <= key(s[j])
  }

  /** Sorts a slice by its keys. */
  method Sort<T>(s: seq<T>, key: T -> int) returns (r: seq<T>)
    ensures SortedBy(r, key) && multiset(r) == multiset(s) && |r| == |s|
  {
    var h := Init(s, key);
    r := [];
    while |h| > 0
      invariant IsHeap(h, key) && SortedBy(r, key)
      invariant multiset(r) + multiset(h) == multiset(s)
      invariant forall x, y :: x in multiset(r) && y in multiset(h) ==> key(x) <= key(y)
      decreases |h|
    {
      var x;
      ghost var h0, r0 := h, r;
      assert h[0] in multiset(h);
      x, h := Pop(h, key);
      assert |h0| == |multiset(h0)| == |h| + 1;
      forall i | 0 <= i < |r0| ensures key(r0[i]) <= key(x) { assert r0[i] in multiset(r0); }
      r := r + [x];
      forall a, b | a in multiset(r) && b in multiset(h) ensures key(a) <= key(b) {
        assert b in multiset(h0) && (a in multiset(r0) || a == x);
        var i :| 0 <= i < |h0| && h0[i] == b;
      }
    }
    assert |r| == |multiset(r)| && |s| == |multiset(s)|;
  }
}
