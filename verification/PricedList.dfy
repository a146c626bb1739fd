/**
 The price-sorted heap of the pool.  Entries of transactions that have left the
 pool stay in the heap until they surface or until enough of them have piled
 up; `all` is the set of live transactions.  What matters to the pool is that
 every live transaction has an entry.
 */
module PricedList {
  import opened Heap
  import opened TxList

  function PriceKey(t: Tx): int { t.price }

  predicate IsLocal(t: Tx, locals: set<Addr>) {
    t.sender in locals
  }

  /** Every live transaction has an entry. */
  ghost predicate Covers(items: seq<Tx>, all: set<Tx>) {
    forall t {:trigger t in all} :: t in all ==> t in multiset(items)
  }

  /** Entries can only have gone from `was` if they were stale or are in `moved`. */
  ghost predicate KeptLive(was: seq<Tx>, now: seq<Tx>, all: set<Tx>, moved: multiset<Tx>) {
    forall t {:trigger t in all} :: t in all && t in multiset(was) ==> t in multiset(now) || t in moved
  }

  ghost predicate CountedAt(was: seq<Tx>, now: seq<Tx>, drop: seq<Tx>, save: seq<Tx>, all: set<Tx>, t: Tx) {
    t in all ==> multiset(was)[t] == multiset(now)[t] + multiset(drop)[t] + multiset(save)[t]
  }

  /** Each live transaction's entries in `was` are still there, dropped, or put aside. */
  ghost predicate Counted(was: seq<Tx>, now: seq<Tx>, drop: seq<Tx>, save: seq<Tx>, all: set<Tx>) {
    forall t {:trigger CountedAt(was, now, drop, save, all, t)} :: CountedAt(was, now, drop, save, all, t)
  }

  lemma CountedKept(was: seq<Tx>, now: seq<Tx>, drop: seq<Tx>, all: set<Tx>)
    requires Counted(was, now, drop, [], all)
    ensures KeptLive(was, now, all, multiset(drop))
    ensures (forall t :: t in drop ==> t in all) ==> multiset(drop) <= multiset(was)
  {
    forall t | t in all && t in multiset(was) ensures t in multiset(now) || t in multiset(drop) {
      assert CountedAt(was, now, drop, [], all, t);
    }
    if forall t :: t in drop ==> t in all {
      forall t ensures multiset(drop)[t] <= multiset(was)[t] {
        assert t in multiset(drop) ==> t in drop;
        assert CountedAt(was, now, drop, [], all, t);
      }
    }
  }

  /** Popping an entry: it was stale, is dropped, or is put aside. */
  lemma PopCounted(was: seq<Tx>, before: seq<Tx>, after: seq<Tx>, drop: seq<Tx>, save: seq<Tx>, all: set<Tx>, tx: Tx)
    requires Counted(was, before, drop, save, all) && multiset(before) == multiset(after) + multiset{tx}
    ensures tx !in all ==> Counted(was, after, drop, save, all)
    ensures Counted(was, after, drop + [tx], save, all) && Counted(was, after, drop, save + [tx], all)
  {
    var dropped, saved := drop + [tx], save + [tx];
    forall t ensures CountedAt(was, after, dropped, save, all, t) && CountedAt(was, after, drop, saved, all, t)
             ensures tx !in all ==> CountedAt(was, after, drop, save, all, t) {
      assert CountedAt(was, before, drop, save, all, t);
    }
  }

  lemma PutBackCounted(was: seq<Tx>, before: seq<Tx>, after: seq<Tx>, drop: seq<Tx>, save: seq<Tx>, all: set<Tx>)
    requires Counted(was, before, drop, save, all) && multiset(after) == multiset(before) + multiset(save)
    ensures Counted(was, after, drop, [], all)
  {
    forall t ensures CountedAt(was, after, drop, [], all, t) {
      assert CountedAt(was, before, drop, save, all, t);
    }
  }

  lemma CountedTrans(a: seq<Tx>, b: seq<Tx>, c: seq<Tx>, drop: seq<Tx>, all: set<Tx>)
    requires Counted(a, b, [], [], all) && Counted(b, c, drop, [], all)
    ensures Counted(a, c, drop, [], all)
  {
    forall t ensures CountedAt(a, c, drop, [], all, t) {
      assert CountedAt(a, b, [], [], all, t) && CountedAt(b, c, drop, [], all, t);
    }
  }

  ghost predicate NotDearerAt(drop: seq<Tx>, items: seq<Tx>, i: int, j: int) {
    0 <= i < |drop| && 0 <= j < |items| ==> drop[i].price <= items[j].price
  }

  /** What was dropped is no dearer than what is left. */
  ghost predicate NotDearer(drop: seq<Tx>, items: seq<Tx>) {
    forall i, j {:trigger NotDearerAt(drop, items, i, j)} :: NotDearerAt(drop, items, i, j)
  }

  /** After popping a least entry, what was dropped before and the entry itself are no dearer than the rest. */
  lemma PopNotDearer(drop: seq<Tx>, before: seq<Tx>, after: seq<Tx>, tx: Tx)
    requires NotDearer(drop, before) && multiset(before) == multiset(after) + multiset{tx}
    requires forall i :: 0 <= i < |after| ==> tx.price <= after[i].price
    ensures NotDearer(drop, after) && NotDearer(drop + [tx], after)
  {
    var dropped := drop + [tx];
    forall i, j ensures NotDearerAt(drop, after, i, j) {
      if 0 <= j < |after| {
        assert after[j] in multiset(before);
        var k :| 0 <= k < |before| && before[k] == after[j];
        assert NotDearerAt(drop, before, i, k);
      }
    }
    forall i, j ensures NotDearerAt(dropped, after, i, j) {
      assert NotDearerAt(drop, after, i, j);
    }
  }

  /** What has been popped is split into live remote and live local entries. */
  ghost predicate Sorted(drop: seq<Tx>, save: seq<Tx>, all: set<Tx>, locals: set<Addr>) {
    && (forall i :: 0 <= i < |drop| ==> drop[i] in all && !IsLocal(drop[i], locals))
    && (forall i :: 0 <= i < |save| ==> save[i] in all && IsLocal(save[i], locals))
  }

  /** The result of discarding, from how the popped entries were split: no remote entry was put aside. */
  lemma Discarded(was: seq<Tx>, rest: seq<Tx>, now: seq<Tx>, drop: seq<Tx>, save: seq<Tx>, all: set<Tx>,
                  locals: set<Addr>)
    requires Counted(was, rest, drop, save, all) && multiset(now) == multiset(rest) + multiset(save)
    requires Sorted(drop, save, all, locals) && NotDearer(drop, rest)
    ensures forall d, t :: d in drop && t in all && t in multiset(now) && !IsLocal(t, locals) ==> d.price <= t.price
    ensures forall t :: t in all && t in multiset(was) && !IsLocal(t, locals) && t !in drop ==> t in multiset(now)
    ensures rest == [] ==> forall t :: t in all && !IsLocal(t, locals) ==> multiset(drop)[t] == multiset(was)[t]
  {
    forall t | t in all && !IsLocal(t, locals)
      ensures multiset(now)[t] == multiset(rest)[t] && multiset(was)[t] == multiset(rest)[t] + multiset(drop)[t]
    {
      assert t in multiset(save) ==> t in save;
      assert CountedAt(was, rest, drop, save, all, t);
    }
    forall d, t | d in drop && t in all && t in multiset(now) && !IsLocal(t, locals) ensures d.price <= t.price {
      assert t in multiset(rest);
      var i :| 0 <= i < |drop| && drop[i] == d;
      var j :| 0 <= j < |rest| && rest[j] == t;
      assert NotDearerAt(drop, rest, i, j);
    }
    forall t | t in all && t in multiset(was) && !IsLocal(t, locals) && t !in drop ensures t in multiset(now) {
      assert t !in multiset(drop);
    }
  }

  /** Some transaction has several of the entries. */
  ghost predicate Repeats(drop: seq<Tx>) {
    exists t :: multiset(drop)[t] > 1
  }

  class TxPricedList {
    var items: seq<Tx>
    var stales: int

    ghost predicate Valid()
      reads this
    {
      IsHeap(items, PriceKey)
    }

    constructor ()
      ensures Valid() && items == []
    {
      items, stales := [], 0;
    }

    method Put(tx: Tx)
      requires Valid()
      modifies this
      ensures Valid() && multiset(items) == multiset(old(items)) + multiset{tx}
    {
      items := Push(items, PriceKey, tx);
    }

    /** Counts a stale entry; past a quarter of the heap, rebuilds it from the live transactions. */
    method Removed(all: set<Tx>)
      requires Valid()
      modifies this
      ensures Valid() && KeptLive(old(items), items, all, multiset{})
      ensures if old(stales) + 1 <= |old(items)| / 4 then items == old(items) && stales == old(stales) + 1
              else multiset(items) == multiset(all) && stales == 0
    {
      stales := stales + 1;
      if stales <= |items| / 4 {
        return;
      }
      var reheap := Elements(all);
      stales := 0;
      items := Init(reheap, PriceKey);
    }

    /** Puts kept entries back. */
    method PutAll(save: seq<Tx>)
      requires Valid()
      modifies this
      ensures Valid() && multiset(items) == multiset(old(items)) + multiset(save)
      ensures stales == old(stales)
    {
      var i := 0;
      while i < |save|
        invariant 0 <= i <= |save|
        invariant Valid() && multiset(items) == multiset(old(items)) + multiset(save[..i])
        invariant stales == old(stales)
      {
        assert save[..i + 1] == save[..i] + [save[i]];
        items := Push(items, PriceKey, save[i]);
        i := i + 1;
      }
      assert save[..|save|] == save;
    }

    /** Takes out every live non-local transaction below the threshold. */
    method Cap(threshold: nat, all: set<Tx>, locals: set<Addr>) returns (drop: seq<Tx>)
      requires Valid()
      modifies this
      ensures Valid() && Counted(old(items), items, drop, [], all)
      ensures forall t :: t in drop ==> t in all && !IsLocal(t, locals) && t.price < threshold
      ensures forall t :: t in all && t in multiset(old(items)) && !IsLocal(t, locals) && t.price < threshold ==>
                t in drop
    {
      drop := [];
      var save: seq<Tx> := [];
      var done := false;
      while |items| > 0 && !done
        invariant Valid() && Counted(old(items), items, drop, save, all)
        invariant forall t :: t in drop ==> t in all && !IsLocal(t, locals) && t.price < threshold
        invariant forall t :: t in save ==> t in all && (IsLocal(t, locals) || threshold <= t.price)
        invariant done ==> forall i :: 0 <= i < |items| ==> threshold <= items[i].price
        decreases |items|, !done
      {
        ghost var before := items;
        var tx := PopHead();
        PopCounted(old(items), before, items, drop, save, all, tx);
        if tx !in all {
          stales := stales - 1;
        } else if tx.price >= threshold {
          save, done := save + [tx], true;
        } else if IsLocal(tx, locals) {
          save := save + [tx];
        } else {
          drop := drop + [tx];
        }
      }
      ghost var left := items;
      PutAll(save);
      PutBackCounted(old(items), left, items, drop, save, all);
      forall t | t in all && t in multiset(old(items)) && !IsLocal(t, locals) && t.price < threshold ensures t in drop {
        assert CountedAt(old(items), left, drop, save, all, t);
        assert t in multiset(save) ==> t in save;
        assert t in multiset(left) ==> t in left;
      }
    }

    /** Pops the cheapest entry. */
    method PopHead() returns (tx: Tx)
      requires Valid() && |items| > 0
      modifies this`items
      ensures Valid() && tx == old(items)[0] && multiset(old(items)) == multiset(items) + multiset{tx} &&
                |items| < |old(items)|
      ensures forall i :: 0 <= i < |items| ==> tx.price <= items[i].price
    {
      tx, items := Pop(items, PriceKey);
      assert |old(items)| == |multiset(old(items))| == |multiset(items)| + 1;
      forall j | 0 <= j < |items| ensures tx.price <= items[j].price {
        assert items[j] in multiset(old(items));
        var i :| 0 <= i < |old(items)| && old(items)[i] == items[j];
        assert PriceKey(tx) <= PriceKey(old(items)[i]);
      }
    }

    /**
     Whether a transaction is no better priced than the cheapest live one.  With
     every live transaction covered, the answer is exact for a non-empty pool.
     */
    method Underpriced(tx: Tx, all: set<Tx>, locals: set<Addr>) returns (r: bool)
      requires Valid()
      modifies this
      ensures Valid() && Counted(old(items), items, [], [], all) && multiset(items) <= multiset(old(items))
      ensures Covers(old(items), all) && all != {} ==>
                (r <==> !IsLocal(tx, locals) && forall t :: t in all ==> tx.price <= t.price)
      ensures all == {} ==> !r
    {
      if IsLocal(tx, locals) {
        return false;
      }
      while |items| > 0 && items[0] !in all
        invariant Valid() && Counted(old(items), items, [], [], all) && multiset(items) <= multiset(old(items))
        decreases |items|
      {
        ghost var before := items;
        stales := stales - 1;
        var stale := PopHead();
        PopCounted(old(items), before, items, [], [], all, stale);
      }
      CountedKept(old(items), items, [], all);
      if |items| == 0 {
        assert multiset(items) == multiset{};
        return false;
      }
      var cheapest := items[0];
      r := cheapest.price >= tx.price;
      if Covers(old(items), all) {
        forall t | t in all ensures cheapest.price <= t.price {
          assert t in multiset(items);
          var i :| 0 <= i < |items| && items[i] == t;
          RootIsLeast(items, PriceKey, i);
        }
      }
    }

    /** Takes out up to `count` of the cheapest live non-local entries, all of them if there are fewer. */
    method Discard(count: int, all: set<Tx>, locals: set<Addr>) returns (drop: seq<Tx>)
      requires Valid()
      modifies this
      ensures Valid() && Counted(old(items), items, drop, [], all)
      ensures |drop| <= if count < 0 then 0 else count
      ensures forall t :: t in drop ==> t in all && !IsLocal(t, locals)
      ensures forall d, t :: d in drop && t in all && t in multiset(items) && !IsLocal(t, locals) ==> d.price <= t.price
      ensures forall t :: t in all && t in multiset(old(items)) && !IsLocal(t, locals) && t !in drop ==>
                t in multiset(items)
      ensures |drop| < count ==> forall t :: t in all && !IsLocal(t, locals) ==>
                multiset(drop)[t] == multiset(old(items))[t]
    {
      var save;
      drop, save := PopCheapest(count, all, locals);
      ghost var rest := items;
      PutAll(save);
      PutBackCounted(old(items), rest, items, drop, save, all);
      Discarded(old(items), rest, items, drop, save, all, locals);
    }

    /** The loop of `Discard`: pops entries, cheapest first, until enough non-local ones are found. */
    method PopCheapest(count: int, all: set<Tx>, locals: set<Addr>) returns (drop: seq<Tx>, save: seq<Tx>)
      requires Valid()
      modifies this
      ensures Valid() && Counted(old(items), items, drop, save, all) && Sorted(drop, save, all, locals) &&
                NotDearer(drop, items)
      ensures |drop| <= (if count < 0 then 0 else count) && (|drop| < count ==> items == [])
    {
      drop, save := [], [];
      while |items| > 0 && |drop| < count
        invariant Valid() && Counted(old(items), items, drop, save, all)
        invariant Sorted(drop, save, all, locals) && NotDearer(drop, items)
        invariant |drop| <= if count < 0 then 0 else count
        decreases |items|
      {
        drop, save := PopOne(drop, save, all, locals, old(items));
      }
    }

    method PopOne(drop0: seq<Tx>, save0: seq<Tx>, all: set<Tx>, locals: set<Addr>, ghost was: seq<Tx>)
      returns (drop: seq<Tx>, save: seq<Tx>)
      requires Valid() && |items| > 0 && Counted(was, items, drop0, save0, all)
      requires Sorted(drop0, save0, all, locals) && NotDearer(drop0, items)
      modifies this
      ensures Valid() && |items| < |old(items)| && Counted(was, items, drop, save, all)
      ensures Sorted(drop, save, all, locals) && NotDearer(drop, items) && |drop| <= |drop0| + 1
    {
      drop, save := drop0, save0;
      ghost var before := items;
      var tx := PopHead();
      PopCounted(was, before, items, drop, save, all, tx);
      PopNotDearer(drop, before, items, tx);
      if tx !in all {
        stales := stales - 1;
      } else if IsLocal(tx, locals) {
        save := save + [tx];
      } else {
        drop := drop + [tx];
      }
    }
  }

  /** The elements of a set, in arbitrary order. */
  method Elements<T(==)>(s: set<T>) returns (r: seq<T>)
    ensures multiset(r) == multiset(s)
  {
    r := [];
    var todo := s;
    while todo != {}
      invariant todo <= s && multiset(r) + multiset(todo) == multiset(s)
      decreases |todo|
    {
      var t :| t in todo;
      r, todo := r + [t], todo - {t};
    }
  }
}
