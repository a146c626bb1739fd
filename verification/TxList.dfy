/**
 The per-account transaction lists of the pool.  What an operation means is
 stated by functions on the plain nonce-to-transaction map; the classes keep
 that map together with a heap of its nonces, a cache of its sorted contents
 and the cost and gas caps, and are proved to do the same.
 */
module TxList {
  import opened Heap
  import opened Options

  type Addr = nat

  /**
   A transaction; `sender` is whose signature it bears if it is signed properly, `cost` is value plus price times gas,
   `id` tells apart those equal in all else.
   */
  datatype Tx = Tx(sender: Addr, nonce: nat, price: nat, gas: nat, cost: nat, value: int, size: nat, signed: bool,
                   id: nat)

  type Items = map<nat, Tx>

  // ---------------------------------------------------------------------------
  // The operations on the plain map
  // ---------------------------------------------------------------------------

  ghost predicate Keyed(items: Items) {
    forall n :: n in items ==> items[n].nonce == n
  }

  /** The transactions of `a` whose nonces `b` no longer has. */
  function Lost(a: Items, b: Items): set<Tx> {
    set n | n in a && n !in b :: a[n]
  }

  function FromNonce(items: Items, threshold: nat): Items {
    map n | n in items && threshold <= n :: items[n]
  }

  predicate Unpayable(tx: Tx, costLimit: nat, gasLimit: nat) {
    tx.cost > costLimit || tx.gas > gasLimit
  }

  /** What a full scan keeps: the payable ones and, in a strict list, only those below every unpayable one. */
  function Payable(items: Items, strict: bool, costLimit: nat, gasLimit: nat): Items {
    map n | n in items && !Unpayable(items[n], costLimit, gasLimit)
            && (strict ==> forall m | m in items :: Unpayable(items[m], costLimit, gasLimit) ==> n < m)
      :: items[n]
  }

  /** `r` holds the `k` lowest-nonced transactions of `items` (all of them, if there are fewer). */
  ghost predicate IsLowest(items: Items, r: Items, k: nat) {
    && (forall n :: n in r ==> n in items && r[n] == items[n])
    && (forall n, m :: n in r && m in items && m !in r ==> n < m)
    && |r| == if |items| <= k then |items| else k
  }

  function BelowNonce(items: Items, nonce: nat): Items {
    map n | n in items && n < nonce :: items[n]
  }

  /** The transactions with consecutive nonces from `n` on. */
  function Run(items: Items, n: nat): (r: seq<Tx>)
    ensures forall m :: n <= m < n + |r| ==> m in items && items[m] == r[m - n]
    ensures n + |r| !in items
    decreases |items|
  {
    if n !in items then [] else
      assert (items - {n}).Keys == items.Keys - {n};
      var rest := Run(items - {n}, n + 1);
      RunFront(items, n, rest);
      [items[n]] + rest
  }

  lemma RunFront(items: Items, n: nat, rest: seq<Tx>)
    requires n in items && n + 1 + |rest| !in items - {n}
    requires forall m :: n + 1 <= m < n + 1 + |rest| ==> m in items - {n} && (items - {n})[m] == rest[m - (n + 1)]
    ensures var r := [items[n]] + rest;
            (forall m :: n <= m < n + |r| ==> m in items && items[m] == r[m - n]) && n + |r| !in items
  {
    var r := [items[n]] + rest;
    forall m | n <= m < n + |r| ensures m in items && items[m] == r[m - n] {
      if m > n {
        assert m in items - {n} && r[m - n] == rest[m - (n + 1)];
      }
    }
  }

  /** What is left once a run of `k` transactions from `n` has been taken. */
  function AfterRun(items: Items, n: nat, k: nat): Items {
    map m | m in items && !(n <= m < n + k) :: items[m]
  }

  ghost predicate IsLeast(items: Items, n: nat) {
    n in items && forall m :: m in items ==> n <= m
  }

  /** A replacement must raise the price, and by the required percentage. */
  predicate Outbids(tx: Tx, prev: Tx, bump: nat) {
    prev.price < tx.price && prev.price * (100 + bump) / 100 <= tx.price
  }

  predicate Accepts(items: Items, tx: Tx, bump: nat) {
    tx.nonce in items ==> Outbids(tx, items[tx.nonce], bump)
  }

  ghost function NonceSet(s: seq<Tx>): set<nat> {
    set i | 0 <= i < |s| :: s[i].nonce
  }

  ghost predicate RisesAt(s: seq<Tx>, i: int, j: int) {
    0 <= i < j < |s| ==> s[i].nonce < s[j].nonce
  }

  ghost predicate Rises(s: seq<Tx>) {
    forall i, j {:trigger RisesAt(s, i, j)} :: RisesAt(s, i, j)
  }

  ghost predicate DiffersAt(s: seq<Tx>, i: int, j: int) {
    0 <= i < j < |s| ==> s[i].nonce != s[j].nonce
  }

  ghost predicate Differs(s: seq<Tx>) {
    forall i, j {:trigger DiffersAt(s, i, j)} :: DiffersAt(s, i, j)
  }

  /** `s` lists, by increasing nonce, the transactions of `items` with nonces in `keys`. */
  ghost predicate Lists(s: seq<Tx>, items: Items, keys: set<nat>) {
    && (forall i :: 0 <= i < |s| ==> s[i].nonce in items && items[s[i].nonce] == s[i])
    && Rises(s) && NonceSet(s) == keys
  }

  ghost predicate Sorts(s: seq<Tx>, items: Items) {
    Lists(s, items, items.Keys)
  }

  lemma ListsAppend(s: seq<Tx>, items: Items, keys: set<nat>, tx: Tx)
    requires Lists(s, items, keys) && tx.nonce in items && items[tx.nonce] == tx
    requires forall n :: n in keys ==> n < tx.nonce
    ensures Lists(s + [tx], items, keys + {tx.nonce})
  {
    var t := s + [tx];
    forall i, j ensures RisesAt(t, i, j) {
      assert RisesAt(s, i, j) && (0 <= i < |s| ==> s[i].nonce in NonceSet(s));
    }
    forall n | n in keys + {tx.nonce} ensures n in NonceSet(t) {
      if n in keys {
        var i :| 0 <= i < |s| && s[i].nonce == n;
        assert t[i].nonce == n;
      } else {
        assert t[|s|].nonce == n;
      }
    }
    forall n | n in NonceSet(t) ensures n in keys + {tx.nonce} {
      var i :| 0 <= i < |t| && t[i].nonce == n;
      assert i < |s| ==> s[i].nonce in NonceSet(s);
    }
  }

  /** `s` lists, in any order and each once, the transactions of `items` with nonces in `keys`. */
  ghost predicate Gathers(s: seq<Tx>, items: Items, keys: set<nat>) {
    && (forall i :: 0 <= i < |s| ==> s[i].nonce in items && items[s[i].nonce] == s[i])
    && Differs(s) && NonceSet(s) == keys
  }

  lemma GathersAppend(s: seq<Tx>, items: Items, keys: set<nat>, tx: Tx)
    requires Gathers(s, items, keys) && tx.nonce in items && items[tx.nonce] == tx && tx.nonce !in keys
    ensures Gathers(s + [tx], items, keys + {tx.nonce})
  {
    var t := s + [tx];
    forall i, j ensures DiffersAt(t, i, j) {
      assert DiffersAt(s, i, j) && (0 <= i < |s| ==> s[i].nonce in NonceSet(s));
    }
    forall n | n in keys + {tx.nonce} ensures n in NonceSet(t) {
      if n in keys {
        var i :| 0 <= i < |s| && s[i].nonce == n;
        assert t[i].nonce == n;
      } else {
        assert t[|s|].nonce == n;
      }
    }
    forall n | n in NonceSet(t) ensures n in keys + {tx.nonce} {
      var i :| 0 <= i < |t| && t[i].nonce == n;
      assert i < |s| ==> s[i].nonce in NonceSet(s);
    }
  }

  function LimitFilter(costLimit: nat, gasLimit: nat): Tx -> bool {
    (tx: Tx) => Unpayable(tx, costLimit, gasLimit)
  }

  function AboveFilter(nonce: nat): Tx -> bool {
    (tx: Tx) => tx.nonce > nonce
  }

  function Passing(items: Items, drop: Tx -> bool): Items {
    map n | n in items && !drop(items[n]) :: items[n]
  }

  /** The first `k` of the sorted contents sort the `k` lowest. */
  lemma LowestSorted(items: Items, s: seq<Tx>, r: Items, k: nat)
    requires Sorts(s, items) && IsLowest(items, r, k) && k <= |s|
    ensures Sorts(s[..k], r)
  {
    ListsSize(s, items, items.Keys);
    var p := 0;
    while p < |s| && s[p].nonce in r
      invariant 0 <= p <= |s| && forall i :: 0 <= i < p ==> s[i].nonce in r
    {
      p := p + 1;
    }
    PrefixSorts(items, s, r, p);
    ListsSize(s[..p], r, r.Keys);
  }

  lemma PrefixSorts(items: Items, s: seq<Tx>, r: Items, p: nat)
    requires Sorts(s, items) && p <= |s| && forall n :: n in r ==> n in items && r[n] == items[n]
    requires forall n, m :: n in r && m in items && m !in r ==> n < m
    requires (forall i :: 0 <= i < p ==> s[i].nonce in r) && (p < |s| ==> s[p].nonce !in r)
    ensures Sorts(s[..p], r)
  {
    var t := s[..p];
    forall i, j ensures RisesAt(t, i, j) {
      assert RisesAt(s, i, j);
    }
    forall n | n in r ensures n in NonceSet(t) {
      assert n in NonceSet(s);
      var i :| 0 <= i < |s| && s[i].nonce == n;
      assert RisesAt(s, p, i);
      assert i < p;
      assert t[i].nonce == n;
    }
    forall n | n in NonceSet(t) ensures n in r {
      var i :| 0 <= i < |t| && t[i].nonce == n;
      assert s[i].nonce in r;
    }
  }

  ghost predicate AscendsAt(s: seq<nat>, i: int, j: int) {
    0 <= i < j < |s| ==> s[i] < s[j]
  }

  ghost predicate Ascends(s: seq<nat>) {
    forall i, j {:trigger AscendsAt(s, i, j)} :: AscendsAt(s, i, j)
  }

  /** A strictly increasing sequence holds each element of its set once. */
  lemma {:induction false} IncreasingOnce(index: seq<nat>, keys: set<nat>)
    requires Ascends(index) && forall n :: n in keys <==> n in index
    ensures multiset(index) == multiset(keys) && |index| == |keys|
    decreases |index|
  {
    if index == [] {
      assert keys == {};
    } else {
      var rest, last := index[..|index| - 1], index[|index| - 1];
      AllButLast(index, keys, rest, last);
      IncreasingOnce(rest, keys - {last});
      OneMore(rest, keys - {last}, last);
      assert index == rest + [last] && keys == (keys - {last}) + {last};
    }
  }

  lemma OneMore(rest: seq<nat>, keys: set<nat>, last: nat)
    requires multiset(rest) == multiset(keys) && |rest| == |keys| && last !in keys
    ensures multiset(rest + [last]) == multiset(keys + {last}) && |rest + [last]| == |keys + {last}|
  {
  }

  lemma AllButLast(index: seq<nat>, keys: set<nat>, rest: seq<nat>, last: nat)
    requires Ascends(index) && index == rest + [last] && forall n :: n in keys <==> n in index
    ensures Ascends(rest) && last in keys && forall m :: m in keys - {last} <==> m in rest
  {
    forall i, j ensures AscendsAt(rest, i, j) {
      assert AscendsAt(index, i, j);
    }
    assert index[|rest|] == last;
    forall m ensures m in keys - {last} <==> m in rest {
      assert m in index <==> m in rest || m == last;
      if m in rest {
        var i :| 0 <= i < |rest| && rest[i] == m;
        assert AscendsAt(index, i, |rest|);
      }
    }
  }

  /** Sorting the nonces of a set makes them strictly increasing. */
  lemma SortedStrictly(index: seq<nat>, keys: set<nat>)
    requires multiset(index) == multiset(keys) && SortedBy(index, NonceKey)
    ensures forall i, j :: 0 <= i < j < |index| ==> index[i] < index[j]
  {
    forall i, j | 0 <= i < j < |index| ensures index[i] < index[j] {
      assert NonceKey(index[i]) <= NonceKey(index[j]);
      if index[i] == index[j] {
        TwiceIn(index, i, j);
      }
    }
  }

  /** The stored transactions, in arbitrary order. */
  method ValuesOf(items: Items) returns (s: seq<Tx>)
    requires Keyed(items)
    ensures Gathers(s, items, items.Keys)
  {
    var rest;
    rest, s := FilterItems(items, t => true);
    assert rest == map[];
  }

  lemma TwiceIn<T>(s: seq<T>, i: nat, j: nat)
    requires i < j < |s| && s[i] == s[j]
    ensures multiset(s)[s[i]] >= 2
  {
    var a, b := s[..j], s[j..];
    assert s == a + b && a[i] == s[i] && b[0] == s[i];
    assert s[i] in multiset(a) && s[i] in multiset(b);
  }

  lemma {:induction false} OnceIn<T>(s: seq<T>, x: T)
    requires forall i, j :: 0 <= i < j < |s| ==> s[i] != s[j]
    ensures multiset(s)[x] <= 1
  {
    if s != [] {
      var n := |s| - 1;
      assert s == s[..n] + [s[n]];
      OnceIn(s[..n], x);
      if x == s[n] {
        assert x !in s[..n];
        assert x !in multiset(s[..n]);
      }
    }
  }

  /** The sorted version of an unordered listing has strictly increasing nonces. */
  lemma SortedApart(items: Items, s: seq<Tx>, t: seq<Tx>)
    requires Gathers(s, items, items.Keys) && multiset(t) == multiset(s) && SortedBy(t, TxNonceKey)
    ensures Rises(t)
  {
    forall k, l | 0 <= k < l < |s| ensures s[k] != s[l] {
      assert DiffersAt(s, k, l);
    }
    forall i, j | 0 <= i < j < |t| ensures RisesAt(t, i, j) {
      assert TxNonceKey(t[i]) <= TxNonceKey(t[j]);
      assert t[i] in multiset(s) && t[j] in multiset(s);
      if t[i] == t[j] {
        TwiceIn(t, i, j);
        OnceIn(s, t[i]);
      }
    }
  }

  lemma SortGathered(items: Items, s: seq<Tx>, t: seq<Tx>)
    requires Gathers(s, items, items.Keys) && multiset(t) == multiset(s) && SortedBy(t, TxNonceKey)
    ensures Sorts(t, items)
  {
    SortedApart(items, s, t);
    forall i | 0 <= i < |t| ensures t[i].nonce in items && items[t[i].nonce] == t[i] {
      assert t[i] in multiset(s);
    }
    forall n | n in items ensures n in NonceSet(t) {
      var i :| 0 <= i < |s| && s[i].nonce == n;
      assert s[i] in multiset(t);
      var j :| 0 <= j < |t| && t[j] == s[i];
      assert t[j].nonce == n;
    }
  }

  lemma {:induction false} ListsSize(s: seq<Tx>, items: Items, keys: set<nat>)
    requires Lists(s, items, keys)
    ensures |keys| == |s|
    decreases |s|
  {
    if s != [] {
      var n := |s| - 1;
      var t := s[..n];
      forall m | m in keys - {s[n].nonce} ensures m in NonceSet(t) {
        var i :| 0 <= i < |s| && s[i].nonce == m;
        assert t[i].nonce == m;
      }
      forall m | m in NonceSet(t) ensures m in keys - {s[n].nonce} {
        var i :| 0 <= i < |t| && t[i].nonce == m;
        assert s[i].nonce == m && m in NonceSet(s) && RisesAt(s, i, n);
      }
      forall i, j ensures RisesAt(t, i, j) {
        assert RisesAt(s, i, j);
      }
      ListsSize(t, items, keys - {s[n].nonce});
      assert s[n].nonce in NonceSet(s);
    }
  }

  /** The head of the sorted contents is the least nonce, and the tail sorts the rest. */
  lemma FirstIsLeast(items: Items, s: seq<Tx>, n: nat)
    requires Sorts(s, items) && IsLeast(items, n)
    ensures |s| > 0 && s[0] == items[n] && Sorts(s[1..], items - {n})
  {
    var t := s[1..];
    assert n in NonceSet(s);
    var i :| 0 <= i < |s| && s[i].nonce == n;
    assert RisesAt(s, 0, i);
    forall k, j ensures RisesAt(t, k, j) {
      assert RisesAt(s, k + 1, j + 1);
    }
    forall m | m in items.Keys - {n} ensures m in NonceSet(t) {
      var j :| 0 <= j < |s| && s[j].nonce == m;
      assert t[j - 1].nonce == m;
    }
    forall m | m in NonceSet(t) ensures m in items.Keys - {n} {
      var j :| 0 <= j < |t| && t[j].nonce == m;
      assert s[j + 1].nonce == m && s[j + 1].nonce in NonceSet(s) && RisesAt(s, 0, j + 1);
    }
  }

  // ---------------------------------------------------------------------------
  // The sorted map
  // ---------------------------------------------------------------------------

  function NonceKey(n: nat): int { n }
  function TxNonceKey(t: Tx): int { t.nonce }

  class SortedMap {
    var items: Items
    var index: seq<nat>
    var cache: Option<seq<Tx>>

    /** The index is a heap over exactly the stored nonces. */
    ghost predicate Indexed()
      reads this
    {
      Keyed(items) && IsHeap(index, NonceKey) && multiset(index) == multiset(items.Keys)
    }

    /** Moreover a cache, if there is one, is the sorted contents. */
    ghost predicate Valid()
      reads this
    {
      Indexed() && (cache.Some? ==> Sorts(cache.value, items))
    }

    constructor ()
      ensures Valid() && items == map[]
    {
      items, index, cache := map[], [], None;
    }

    lemma IndexMembers()
      requires Indexed()
      ensures forall n :: n in index <==> n in items
      ensures |index| == |items|
      ensures |index| > 0 ==> IsLeast(items, index[0])
    {
      SameMembers(index, items.Keys);
      if |index| > 0 {
        assert index[0] in index;
        forall m | m in items ensures index[0] <= m {
          var i :| 0 <= i < |index| && index[i] == m;
          RootIsLeast(index, NonceKey, i);
        }
      }
    }

    method Put(tx: Tx)
      requires Valid()
      modifies this
      ensures Valid() && items == old(items)[tx.nonce := tx]
    {
      if tx.nonce !in items {
        index := Push(index, NonceKey, tx.nonce);
      }
      items, cache := items[tx.nonce := tx], None;
      assert items.Keys == old(items.Keys) + {tx.nonce};
    }

    /** Pops the least nonce off the heap and out of the map. */
    method PopLeast() returns (tx: Tx)
      requires Indexed() && |index| > 0
      modifies this`items, this`index
      ensures Indexed() && IsLeast(old(items), tx.nonce) && old(items)[tx.nonce] == tx
      ensures items == old(items) - {tx.nonce} && |items| == |old(items)| - 1
    {
      IndexMembers();
      assert index[0] in items;
      var nonce;
      nonce, index := Pop(index, NonceKey);
      tx := items[nonce];
      items := items - {nonce};
      KeysWithout(old(items), nonce);
      CancelOne(multiset(index), multiset(items.Keys), nonce);
    }

    /** How a `Forward` stands: `removed` was taken off the front, and a cache still has it there. */
    ghost predicate Forwarding(was: Items, removed: seq<Tx>, threshold: nat)
      reads this
    {
      && Indexed() && (cache.Some? ==> |removed| <= |cache.value| && Sorts(cache.value[|removed|..], items))
      && Taken(was, items, removed) && FromNonce(was, threshold) == FromNonce(items, threshold)
    }

    /** Removes the transactions below the threshold, in nonce order; a cache loses its front. */
    method Forward(threshold: nat) returns (removed: seq<Tx>)
      requires Valid()
      modifies this
      ensures Valid() && items == FromNonce(old(items), threshold)
      ensures Lists(removed, old(items), old(items.Keys) - items.Keys)
    {
      removed := ForwardAll(threshold);
      if cache.Some? {
        cache := Some(cache.value[|removed|..]);
      }
    }

    /** The loop of `Forward`. */
    method ForwardAll(threshold: nat) returns (removed: seq<Tx>)
      requires Valid()
      modifies this`items, this`index
      ensures Forwarding(old(items), removed, threshold) && items == FromNonce(items, threshold)
    {
      removed := [];
      NothingTaken(items);
      assert cache.Some? ==> cache.value[0..] == cache.value;
      while |index| > 0 && index[0] < threshold
        invariant Forwarding(old(items), removed, threshold)
        decreases |items|
      {
        removed := ForwardOne(removed, threshold, old(items));
      }
      IndexMembers();
      assert forall m :: m in items ==> threshold <= m;
    }

    /** One round of the loop of `Forward`. */
    method ForwardOne(removed: seq<Tx>, threshold: nat, ghost was: Items) returns (r: seq<Tx>)
      requires Forwarding(was, removed, threshold) && |index| > 0 && index[0] < threshold
      modifies this`items, this`index
      ensures Forwarding(was, r, threshold) && |items| < |old(items)|
    {
      IndexMembers();
      ghost var before := items;
      var tx := PopLeast();
      if cache.Some? {
        FirstIsLeast(before, cache.value[|removed|..], tx.nonce);
        assert cache.value[|removed|..][1..] == cache.value[|removed| + 1..];
      }
      TakeOne(was, before, removed, threshold, tx);
      r := removed + [tx];
    }

    /** Rebuilds the heap from the stored nonces. */
    method Reindex()
      requires Keyed(items)
      modifies this`index
      ensures Indexed()
    {
      index := [];
      var todo := items.Keys;
      while todo != {}
        invariant todo <= items.Keys && multiset(index) + multiset(todo) == multiset(items.Keys)
        decreases |todo|
      {
        var n :| n in todo;
        index, todo := index + [n], todo - {n};
      }
      index := Init(index, NonceKey);
    }

    /** Removes the transactions that `drop` selects; if there are any, heap and cache are rebuilt. */
    method Filter(drop: Tx -> bool) returns (removed: seq<Tx>)
      requires Valid()
      modifies this
      ensures Valid() && items == Passing(old(items), drop)
      ensures Gathers(removed, old(items), old(items.Keys) - items.Keys)
    {
      items, removed := FilterItems(items, drop);
      if |removed| > 0 {
        Reindex();
        cache := None;
      }
    }

    /** Drops the transactions beyond the `threshold` lowest-nonced ones; a cache loses its back. */
    method Cap(threshold: nat) returns (drops: seq<Tx>)
      requires Valid()
      modifies this
      ensures Valid() && IsLowest(old(items), items, threshold)
      ensures Gathers(drops, old(items), old(items.Keys) - items.Keys)
    {
      IndexMembers();
      if |items| <= threshold {
        assert NonceSet([]) == {};
        return [];
      }
      index := Sort(index, NonceKey);
      items, drops := CapItems(items, index, threshold);
      index := Init(index[..threshold], NonceKey);
      if cache.Some? {
        ListsSize(cache.value, old(items), old(items.Keys));
        LowestSorted(old(items), cache.value, items, threshold);
        cache := Some(cache.value[..|cache.value| - |drops|]);
      }
    }

    /** Deletes one nonce from map and heap. */
    method Remove(nonce: nat) returns (found: bool)
      requires Valid()
      modifies this
      ensures Valid() && found == (nonce in old(items)) && items == old(items) - {nonce}
    {
      if nonce !in items {
        return false;
      }
      IndexMembers();
      var i := 0;
      while index[i] != nonce
        invariant 0 <= i < |index| && nonce in index[i..]
        decreases |index| - i
      {
        assert index[i..] == [index[i]] + index[i + 1..];
        i := i + 1;
      }
      index := Heap.Remove(index, NonceKey, i);
      KeysWithout(items, nonce);
      CancelOne(multiset(index), multiset((items - {nonce}).Keys), nonce);
      items, cache := items - {nonce}, None;
      return true;
    }

    /** Takes the consecutive transactions from the least nonce on, if that is not above `start`. */
    method Ready(start: nat) returns (ready: seq<Tx>)
      requires Valid()
      modifies this
      ensures Valid()
      ensures (items == old(items) && ready == [] && forall n :: n in items ==> start < n) ||
              exists n: nat :: n <= start && IsLeast(old(items), n) && ready == Run(old(items), n)
                          && items == AfterRun(old(items), n, |ready|)
    {
      IndexMembers();
      if |index| == 0 || index[0] > start {
        return [];
      }
      ghost var first := index[0];
      ready := ReadyRun();
      cache := None;
      RunIs(old(items), first, ready);
    }

    /** The loop of `Ready`: pops nonces as long as they follow one another. */
    method ReadyRun() returns (ready: seq<Tx>)
      requires Indexed() && |index| > 0
      modifies this`items, this`index
      ensures Indexed() && Collected(old(items), items, old(index[0]), ready) && old(index[0]) + |ready| !in old(items)
    {
      ready := [];
      IndexMembers();
      var next := index[0];
      ghost var first := next;
      while |index| > 0 && index[0] == next
        invariant Indexed() && next == first + |ready| && Collected(old(items), items, first, ready)
        decreases |items|
      {
        IndexMembers();
        ghost var was := items;
        var tx := PopLeast();
        CollectOne(old(items), was, first, ready, tx);
        ready, next := ready + [tx], next + 1;
      }
      IndexMembers();
      RunEnds(old(items), items, first, ready);
    }

    /** The contents by increasing nonce, sorted once and cached until the next change. */
    method Flatten() returns (txs: seq<Tx>)
      requires Valid()
      modifies this`cache
      ensures Valid() && Sorts(txs, items)
    {
      if cache.None? {
        var values := ValuesOf(items);
        var sorted := Sort(values, TxNonceKey);
        SortGathered(items, values, sorted);
        cache := Some(sorted);
      }
      txs := cache.value;
    }
  }

  /** `ready` is a run of nonces from `first` on, taken out of `was`, leaving `now`. */
  ghost predicate Collected(was: Items, now: Items, first: nat, ready: seq<Tx>) {
    && now == AfterRun(was, first, |ready|)
    && forall m :: first <= m < first + |ready| ==> m in was && ready[m - first] == was[m]
  }

  lemma CollectOne(was: Items, now: Items, first: nat, ready: seq<Tx>, tx: Tx)
    requires Collected(was, now, first, ready) && tx.nonce == first + |ready| && tx.nonce in now && now[tx.nonce] == tx
    ensures Collected(was, now - {tx.nonce}, first, ready + [tx])
  {
    assert now - {tx.nonce} == AfterRun(was, first, |ready| + 1);
  }

  /** When the least nonce left does not continue the run, the run is over. */
  lemma RunEnds(was: Items, now: Items, first: nat, ready: seq<Tx>)
    requires Collected(was, now, first, ready) && IsLeast(was, first)
    requires now == map[] || exists least: nat :: IsLeast(now, least) && least != first + |ready|
    ensures first + |ready| !in was
  {
    var next := first + |ready|;
    assert next in was ==> next in now;
  }

  ghost predicate RunsTo(items: Items, n: nat, r: seq<Tx>) {
    forall m :: n <= m < n + |r| ==> m in items && r[m - n] == items[m]
  }

  lemma RunTail(items: Items, n: nat, r: seq<Tx>)
    requires RunsTo(items, n, r) && r != []
    ensures n in items && r[0] == items[n] && RunsTo(items - {n}, n + 1, r[1..])
  {
    var rest := r[1..];
    assert n in items && r[n - n] == items[n];
    forall m | n + 1 <= m < n + 1 + |rest| ensures m in items - {n} && rest[m - (n + 1)] == (items - {n})[m] {
      assert m in items && r[m - n] == items[m];
    }
  }

  lemma {:induction false} RunIs(items: Items, n: nat, r: seq<Tx>)
    requires RunsTo(items, n, r) && n + |r| !in items
    ensures Run(items, n) == r
    decreases |r|
  {
    if r != [] {
      RunTail(items, n, r);
      RunIs(items - {n}, n + 1, r[1..]);
      assert r == [r[0]] + r[1..];
    }
  }

  /** The filter loop over the map. */
  method FilterItems(was: Items, drop: Tx -> bool) returns (now: Items, removed: seq<Tx>)
    requires Keyed(was)
    ensures now == Passing(was, drop)
    ensures Gathers(removed, was, was.Keys - now.Keys)
    ensures removed == [] ==> now == was
  {
    now, removed := was, [];
    assert NonceSet(removed) == {};
    var todo := was.Keys;
    while todo != {}
      invariant todo <= now.Keys
      invariant Filtering(was, now, todo, drop, removed)
      decreases |todo|
    {
      var n :| n in todo;
      FilterStep(was, now, todo, drop, removed, n);
      if drop(now[n]) {
        removed, now := removed + [now[n]], now - {n};
      }
      todo := todo - {n};
    }
  }

  /** The cap loop: deletes from the back of the sorted index. */
  method CapItems(was: Items, index: seq<nat>, threshold: nat) returns (now: Items, drops: seq<Tx>)
    requires Keyed(was) && multiset(index) == multiset(was.Keys) && SortedBy(index, NonceKey)
    requires threshold < |was|
    ensures IsLowest(was, now, threshold) && threshold < |index|
    ensures multiset(index[..threshold]) == multiset(now.Keys)
    ensures Gathers(drops, was, was.Keys - now.Keys) && |drops| == |was| - threshold
  {
    SameMembers(index, was.Keys);
    SortedStrictly(index, was.Keys);
    now, drops := was, [];
    assert NonceSet(drops) == {};
    var size := |was|;
    while size > threshold
      invariant threshold <= size <= |index|
      invariant Capping(was, now, index, size)
      invariant Gathers(drops, was, was.Keys - now.Keys) && |drops| == |index| - size
      decreases size
    {
      CapStep(was, now, index, size - 1, drops);
      drops, now := drops + [now[index[size - 1]]], now - {index[size - 1]};
      size := size - 1;
    }
    CapDone(was, now, index, threshold);
  }

  /** The state of a filter pass: everything not in `todo` has been decided. */
  ghost predicate Filtering(was: Items, now: Items, todo: set<nat>, drop: Tx -> bool, removed: seq<Tx>) {
    && (forall n :: n in now ==> n in was && now[n] == was[n])
    && (forall n :: n in was && n !in todo ==> (n in now <==> !drop(was[n])))
    && Gathers(removed, was, was.Keys - now.Keys)
    && (removed == [] ==> now == was)
  }

  lemma FilterStep(was: Items, now: Items, todo: set<nat>, drop: Tx -> bool, removed: seq<Tx>, n: nat)
    requires Keyed(was) && Filtering(was, now, todo, drop, removed) && n in todo && n in now
    ensures drop(now[n]) ==> Filtering(was, now - {n}, todo - {n}, drop, removed + [now[n]])
    ensures !drop(now[n]) ==> Filtering(was, now, todo - {n}, drop, removed)
  {
    if drop(now[n]) {
      GathersAppend(removed, was, was.Keys - now.Keys, now[n]);
      assert was.Keys - (now - {n}).Keys == (was.Keys - now.Keys) + {n};
    }
  }

  /** The state of a cap pass: what is left are the first `size` nonces of the sorted index. */
  ghost predicate Capping(was: Items, now: Items, index: seq<nat>, size: nat) {
    && (forall i, j :: 0 <= i < j < |index| ==> index[i] < index[j])
    && (forall n :: n in was <==> n in index)
    && (forall n :: n in now ==> n in was && now[n] == was[n])
    && (forall i :: 0 <= i < |index| ==> (index[i] in now <==> i < size))
  }

  lemma CapStep(was: Items, now: Items, index: seq<nat>, k: nat, drops: seq<Tx>)
    requires Keyed(was) && k < |index| && Capping(was, now, index, k + 1)
    requires Gathers(drops, was, was.Keys - now.Keys)
    ensures index[k] in now && Capping(was, now - {index[k]}, index, k)
    ensures Gathers(drops + [now[index[k]]], was, was.Keys - (now - {index[k]}).Keys)
  {
    GathersAppend(drops, was, was.Keys - now.Keys, now[index[k]]);
    assert was.Keys - (now - {index[k]}).Keys == (was.Keys - now.Keys) + {index[k]};
  }

  lemma CapDone(was: Items, now: Items, index: seq<nat>, k: nat)
    requires Capping(was, now, index, k) && k < |index| == |was|
    ensures IsLowest(was, now, k)
    ensures multiset(index[..k]) == multiset(now.Keys)
  {
    var t := index[..k];
    forall n ensures n in now <==> n in t {
      if n in now {
        var i :| 0 <= i < |index| && index[i] == n;
        assert t[i] == n;
      }
      if n in t {
        var i :| 0 <= i < |t| && t[i] == n;
        assert index[i] in now;
      }
    }
    forall i, j ensures AscendsAt(t, i, j) {
    }
    IncreasingOnce(t, now.Keys);
    forall n, m | n in now && m in was && m !in now ensures n < m {
      var i :| 0 <= i < |index| && index[i] == n;
      var j :| 0 <= j < |index| && index[j] == m;
    }
  }

  /** `removed` lists what was taken off the front of `was`, leaving `now`. */
  ghost predicate Taken(was: Items, now: Items, removed: seq<Tx>) {
    && (forall n :: n in now ==> n in was && now[n] == was[n])
    && (forall n, m :: n in was && n !in now && m in now ==> n < m)
    && Lists(removed, was, was.Keys - now.Keys)
  }

  lemma NothingTaken(items: Items)
    ensures Taken(items, items, [])
  {
    assert NonceSet([]) == {} && items.Keys - items.Keys == {};
  }

  lemma TakeOne(was: Items, now: Items, removed: seq<Tx>, threshold: nat, tx: Tx)
    requires Taken(was, now, removed) && IsLeast(now, tx.nonce) && now[tx.nonce] == tx && tx.nonce < threshold
    ensures Taken(was, now - {tx.nonce}, removed + [tx])
    ensures FromNonce(now - {tx.nonce}, threshold) == FromNonce(now, threshold)
  {
    ListsAppend(removed, was, was.Keys - now.Keys, tx);
    assert was.Keys - (now - {tx.nonce}).Keys == (was.Keys - now.Keys) + {tx.nonce};
  }

  lemma CancelOne(a: multiset<nat>, b: multiset<nat>, n: nat)
    requires a + multiset{n} == b + multiset{n}
    ensures a == b
  {
    assert a == a + multiset{n} - multiset{n};
    assert b == b + multiset{n} - multiset{n};
  }

  lemma SameMembers(s: seq<nat>, keys: set<nat>)
    requires multiset(s) == multiset(keys)
    ensures |s| == |keys| && forall n :: n in s <==> n in keys
  {
    forall n ensures n in s <==> n in keys {
      assert n in s <==> n in multiset(s);
      assert n in keys <==> n in multiset(keys);
    }
    assert |s| == |multiset(s)| == |multiset(keys)| == |keys|;
  }

  lemma KeysWithout(items: Items, n: nat)
    requires n in items
    ensures (items - {n}).Keys == items.Keys - {n} && |items - {n}| == |items| - 1
    ensures multiset(items.Keys) == multiset((items - {n}).Keys) + multiset{n}
  {
    assert items.Keys == (items - {n}).Keys + {n};
  }

  // ---------------------------------------------------------------------------
  // The list of one account
  // ---------------------------------------------------------------------------

  /** The value of a list: its mode, its contents and the caps on cost and gas. */
  datatype ListState = ListState(strict: bool, items: Items, costcap: nat, gascap: nat)

  /** The caps bound what is stored. */
  ghost predicate ListOk(l: ListState) {
    && Keyed(l.items)
    && (forall n :: n in l.items ==> l.items[n].cost <= l.costcap && l.items[n].gas <= l.gascap)
  }

  function NewList(strict: bool): ListState {
    ListState(strict, map[], 0, 0)
  }

  function Max(a: nat, b: nat): nat {
    if a < b then b else a
  }

  function Added(l: ListState, tx: Tx): ListState {
    ListState(l.strict, l.items[tx.nonce := tx], Max(l.costcap, tx.cost), Max(l.gascap, tx.gas))
  }

  function Filtered(l: ListState, costLimit: nat, gasLimit: nat): ListState {
    if l.costcap <= costLimit && l.gascap <= gasLimit then l else
      ListState(l.strict, Payable(l.items, l.strict, costLimit, gasLimit), costLimit, gasLimit)
  }

  /** Removing a nonce; in a strict list everything above it goes too. */
  function Without(l: ListState, nonce: nat): ListState {
    if nonce !in l.items then l else
      l.(items := if l.strict then BelowNonce(l.items, nonce) else l.items - {nonce})
  }

  /** When the caps are within the limits, the full scan would keep everything: the short circuit is exact. */
  lemma ShortCircuit(l: ListState, costLimit: nat, gasLimit: nat)
    requires ListOk(l)
    ensures Filtered(l, costLimit, gasLimit).items == Payable(l.items, l.strict, costLimit, gasLimit)
    ensures ListOk(Filtered(l, costLimit, gasLimit))
  {
  }

  class List {
    const strict: bool
    const txs: SortedMap
    var costcap: nat
    var gascap: nat

    ghost function State(): ListState
      reads this, txs
    {
      ListState(strict, txs.items, costcap, gascap)
    }

    ghost predicate Valid()
      reads this, txs
    {
      txs.Valid() && ListOk(State())
    }

    constructor (s: bool)
      ensures Valid() && fresh(txs) && State() == NewList(s)
    {
      strict := s;
      txs := new SortedMap();
      costcap, gascap := 0, 0;
    }

    /** Inserts a transaction unless the one it would replace is nearly as well priced. */
    method Add(tx: Tx, priceBump: nat) returns (inserted: bool, replaced: Option<Tx>)
      requires Valid()
      modifies this, txs
      ensures Valid() && inserted == Accepts(old(txs.items), tx, priceBump)
      ensures State() == if inserted then Added(old(State()), tx) else old(State())
      ensures replaced == if inserted && tx.nonce in old(txs.items) then Some(old(txs.items)[tx.nonce]) else None
    {
      replaced := None;
      if tx.nonce in txs.items {
        var prev := txs.items[tx.nonce];
        if prev.price >= tx.price || prev.price * (100 + priceBump) / 100 > tx.price {
          return false, None;
        }
        replaced := Some(prev);
      }
      txs.Put(tx);
      if costcap < tx.cost { costcap := tx.cost; }
      if gascap < tx.gas { gascap := tx.gas; }
      inserted := true;
    }

    method Forward(threshold: nat) returns (removed: seq<Tx>)
      requires Valid()
      modifies txs
      ensures Valid() && State() == old(State()).(items := FromNonce(old(txs.items), threshold))
      ensures Lists(removed, old(txs.items), old(txs.items.Keys) - txs.items.Keys)
    {
      removed := txs.Forward(threshold);
    }

    /** Drops what the limits do not cover and, in a strict list, whatever that invalidates. */
    method Filter(costLimit: nat, gasLimit: nat) returns (removed: seq<Tx>, invalids: seq<Tx>)
      requires Valid()
      modifies this, txs
      ensures Valid() && State() == Filtered(old(State()), costLimit, gasLimit)
      ensures txs.items == Payable(old(txs.items), strict, costLimit, gasLimit)
      ensures Gathers(removed, old(txs.items), BadNonces(old(txs.items), costLimit, gasLimit))
      ensures Gathers(invalids, old(txs.items),
                      old(txs.items.Keys) - txs.items.Keys - BadNonces(old(txs.items), costLimit, gasLimit))
    {
      ghost var was := txs.items;
      ShortCircuit(State(), costLimit, gasLimit);
      assert NonceSet([]) == {};
      if costcap <= costLimit && gascap <= gasLimit {
        assert BadNonces(was, costLimit, gasLimit) == {};
        return [], [];
      }
      costcap, gascap := costLimit, gasLimit;
      removed := txs.Filter(LimitFilter(costLimit, gasLimit));
      assert was.Keys - txs.items.Keys == BadNonces(was, costLimit, gasLimit);
      invalids := [];
      if strict && |removed| > 0 {
        var lowest := LowestNonce(removed);
        ghost var kept := txs.items;
        invalids := txs.Filter(AboveFilter(lowest));
        StrictScan(was, kept, removed, lowest, costLimit, gasLimit);
        assert was.Keys - txs.items.Keys - BadNonces(was, costLimit, gasLimit) == kept.Keys - txs.items.Keys;
      } else {
        PlainScan(was, removed, strict, costLimit, gasLimit);
        assert was.Keys - txs.items.Keys - BadNonces(was, costLimit, gasLimit) == {};
      }
    }

    method Cap(threshold: nat) returns (drops: seq<Tx>)
      requires Valid()
      modifies txs
      ensures Valid() && State() == old(State()).(items := txs.items) && IsLowest(old(txs.items), txs.items, threshold)
      ensures Gathers(drops, old(txs.items), old(txs.items.Keys) - txs.items.Keys)
    {
      drops := txs.Cap(threshold);
    }

    /** Deletes a nonce; in strict mode also returns and deletes everything above it. */
    method Remove(tx: Tx) returns (found: bool, invalids: seq<Tx>)
      requires Valid()
      modifies txs
      ensures Valid() && found == (tx.nonce in old(txs.items)) && State() == Without(old(State()), tx.nonce)
      ensures Gathers(invalids, old(txs.items), old(txs.items.Keys) - txs.items.Keys - {tx.nonce})
    {
      ghost var was := txs.items;
      assert NonceSet([]) == {};
      found := txs.Remove(tx.nonce);
      invalids := [];
      if found && strict {
        invalids := txs.Filter(AboveFilter(tx.nonce));
        StrictRemoval(was, tx.nonce, txs.items, invalids);
      } else {
        assert was.Keys - txs.items.Keys - {tx.nonce} == {};
      }
      assert !found ==> txs.items == was;
    }

    method Ready(start: nat) returns (ready: seq<Tx>)
      requires Valid()
      modifies txs
      ensures Valid() && State() == old(State()).(items := txs.items)
      ensures (txs.items == old(txs.items) && ready == [] && forall n :: n in txs.items ==> start < n) ||
              exists n: nat :: n <= start && IsLeast(old(txs.items), n) && ready == Run(old(txs.items), n)
                               && txs.items == AfterRun(old(txs.items), n, |ready|)
    {
      ready := txs.Ready(start);
    }
  }

  ghost function BadNonces(items: Items, costLimit: nat, gasLimit: nat): set<nat> {
    set n | n in items && Unpayable(items[n], costLimit, gasLimit)
  }

  /** The loop that finds the lowest removed nonce. */
  method LowestNonce(removed: seq<Tx>) returns (lowest: nat)
    requires removed != []
    ensures lowest in NonceSet(removed) && forall n :: n in NonceSet(removed) ==> lowest <= n
  {
    lowest := removed[0].nonce;
    var i := 1;
    while i < |removed|
      invariant 1 <= i <= |removed|
      invariant exists j :: 0 <= j < i && removed[j].nonce == lowest
      invariant forall j :: 0 <= j < i ==> lowest <= removed[j].nonce
    {
      if lowest > removed[i].nonce {
        lowest := removed[i].nonce;
      }
      i := i + 1;
    }
  }

  lemma StrictRemoval(was: Items, nonce: nat, now: Items, invalids: seq<Tx>)
    requires Keyed(was) && now == Passing(was - {nonce}, AboveFilter(nonce))
    requires Gathers(invalids, was - {nonce}, (was - {nonce}).Keys - now.Keys)
    ensures now == BelowNonce(was, nonce)
    ensures Gathers(invalids, was, was.Keys - now.Keys - {nonce})
  {
    assert was.Keys - now.Keys - {nonce} == (was - {nonce}).Keys - now.Keys;
  }

  lemma StrictScan(was: Items, kept: Items, removed: seq<Tx>, lowest: nat, costLimit: nat, gasLimit: nat)
    requires Keyed(was) && kept == Passing(was, LimitFilter(costLimit, gasLimit))
    requires Gathers(removed, was, BadNonces(was, costLimit, gasLimit))
    requires lowest in NonceSet(removed) && forall n :: n in NonceSet(removed) ==> lowest <= n
    ensures Passing(kept, AboveFilter(lowest)) == Payable(was, true, costLimit, gasLimit)
  {
    var bad := BadNonces(was, costLimit, gasLimit);
    assert lowest in bad;
    forall n | n in was && !Unpayable(was[n], costLimit, gasLimit)
      ensures n <= lowest <==> forall m | m in was :: Unpayable(was[m], costLimit, gasLimit) ==> n < m
    {
      if n <= lowest {
        forall m | m in was && Unpayable(was[m], costLimit, gasLimit) ensures n < m {
          assert m in bad;
        }
      }
    }
  }

  lemma PlainScan(was: Items, removed: seq<Tx>, strict: bool, costLimit: nat, gasLimit: nat)
    requires Gathers(removed, was, BadNonces(was, costLimit, gasLimit)) && (strict ==> removed == [])
    ensures Passing(was, LimitFilter(costLimit, gasLimit)) == Payable(was, strict, costLimit, gasLimit)
  {
    if strict {
      assert NonceSet(removed) == {};
      assert forall m :: m in was && Unpayable(was[m], costLimit, gasLimit) ==>
          m in BadNonces(was, costLimit, gasLimit);
    }
  }
}
