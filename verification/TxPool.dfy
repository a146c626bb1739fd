/**
 The transaction pool.  Five structures are kept in step: pending and queued
 lists per account, the set of known transactions, the price heap and the
 virtual nonces.
 */
module TxPool {
  import opened Options
  import opened TxList
  import opened PricedList
  import opened PoolState
  import opened Levels
  import Heap

  datatype Limits = Limits(globalSlots: nat, accountSlots: nat, globalQueue: nat, accountQueue: nat, priceBump: nat)

  datatype Reason =
    | Known
    | OversizedData
    | NegativeValue
    | GasLimit
    | InvalidSender
    | Underpriced
    | NonceTooLow
    | InsufficientFunds
    | ReplaceUnderpriced

  const MAX_TX_SIZE: nat := 32 * 1024

  ghost predicate OnlyLocals(all: set<Tx>, locals: set<Addr>) {
    forall t :: t in all ==> t.sender in locals
  }

  ghost predicate SameIfRemote(all: set<Tx>, locals: set<Addr>, t: Tx, u: Tx) {
    t in all && u in all && t.sender !in locals && u.sender !in locals ==> t == u
  }

  /** At most one of the transactions is remote. */
  ghost predicate OneRemote(all: set<Tx>, locals: set<Addr>) {
    forall t, u {:trigger SameIfRemote(all, locals, t, u)} :: SameIfRemote(all, locals, t, u)
  }

  /** The limit is exceeded by local transactions and at most one remote one only. */
  ghost predicate WithinLimit(all: set<Tx>, locals: set<Addr>, limit: nat) {
    |all| <= limit || OneRemote(all, locals)
  }

  /** Forgetting transactions and marking accounts as local stays within the limit. */
  lemma WithinKept(was: set<Tx>, locals: set<Addr>, now: set<Tx>, more: set<Addr>, limit: nat)
    requires now <= was && locals <= more
    ensures WithinLimit(was, locals, limit) ==> WithinLimit(now, more, limit)
  {
    SubsetSize(now, was);
    if OneRemote(was, locals) {
      forall t, u ensures SameIfRemote(now, more, t, u) {
        assert SameIfRemote(was, locals, t, u);
      }
    }
  }

  /** So does adding one where there is room, or where all are local. */
  lemma WithinAdded(was: set<Tx>, locals: set<Addr>, now: set<Tx>, more: set<Addr>, tx: Tx, limit: nat)
    requires now <= was + {tx} && locals <= more && (|was| < limit || OnlyLocals(was, locals))
    ensures WithinLimit(now, more, limit)
  {
    SubsetSize(now, was + {tx});
  }

  lemma {:induction false} ListSize(list: Items, a: Addr, all: set<Tx>)
    requires Listed(list, a, all)
    ensures |list| <= |all|
    decreases |all|
  {
    if n :| n in list {
      KeysWithout(list, n);
      assert Listed(list - {n}, a, all - {list[n]});
      ListSize(list - {n}, a, all - {list[n]});
    }
  }

  /** The pending list of a remote account is no longer than the limit, or has one transaction. */
  lemma RemoteListWithin(p: Pool, locals: set<Addr>, limit: nat, a: Addr)
    requires PoolOk(p) && WithinLimit(p.all, locals, limit) && a !in locals
    ensures |Of(p.pending, a)| <= limit || |Of(p.pending, a)| <= 1
  {
    assert AccountOk(p, a);
    var list := Of(p.pending, a);
    ListSize(list, a, p.all);
    if |p.all| > limit {
      if n :| n in list {
        forall m | m in list ensures m == n { assert SameIfRemote(p.all, locals, list[n], list[m]); }
        assert list.Keys == {n};
        assert |list.Keys| == |list|;
      }
    }
  }

  /** As many transactions leave as entries were popped, exactly if no entry repeats. */
  lemma DropSize(drop: seq<Tx>, gone: set<Tx>)
    requires gone == set t | t in drop
    ensures |gone| <= |drop| && (drop != [] ==> |gone| > 0)
    ensures |gone| == |drop| <==> !Repeats(drop)
  {
    forall t ensures t in gone <==> t in multiset(drop) { assert t in gone <==> t in drop; }
    var more := multiset(drop) - multiset(gone);
    assert multiset(drop) == multiset(gone) + more;
    assert |multiset(drop)| == |drop| && |multiset(gone)| == |gone|;
    if drop != [] { assert drop[0] in gone; }
    if t :| multiset(drop)[t] > 1 {
      assert t in gone && more[t] > 0;
      assert |more| > 0;
    } else {
      forall t ensures more[t] == 0 { assert multiset(drop)[t] <= 1; }
      assert more == multiset{};
    }
  }

  /**
   Within the limit, discarding `count` entries takes out one transaction, or none
   if none is remote, however many entries it has: beyond the limit there was only
   one to take out.
   */
  lemma OneGoes(was: set<Tx>, gone: set<Tx>, drop: seq<Tx>, locals: set<Addr>, limit: nat)
    requires |was| >= limit && WithinLimit(was, locals, limit) && gone == set t | t in drop
    requires forall t :: t in drop ==> t in was && t.sender !in locals
    requires |drop| <= |was| + 1 - limit
    requires |drop| < |was| + 1 - limit ==> forall t :: t in was && t.sender !in locals ==> t in drop
    ensures |was| - |was - gone| == if OnlyLocals(was, locals) then 0 else 1
    ensures |was - gone| < limit || OnlyLocals(was - gone, locals)
  {
    if drop == [] {
      assert was - gone == was;
    } else {
      var t := drop[0];
      if |drop| == 1 {
        assert gone == {t};
      } else {
        forall u ensures u in gone <==> u == t {
          assert SameIfRemote(was, locals, t, u) && (u in gone ==> u in drop);
        }
      }
      assert was == (was - gone) + {t};
      if |was| > limit {
        forall u | u in was - gone ensures u.sender in locals { assert SameIfRemote(was, locals, t, u); }
      }
    }
  }

  /** What discarding says about the live transactions. */
  lemma DiscardSettled(before: seq<Tx>, now: seq<Tx>, drop: seq<Tx>, all: set<Tx>, locals: set<Addr>, count: int)
    requires Counted(before, now, drop, [], all) && Covers(before, all)
    requires forall d, t :: d in drop && t in all && t in multiset(now) && !IsLocal(t, locals) ==> d.price <= t.price
    requires |drop| < count ==> forall t :: t in all && !IsLocal(t, locals) ==> multiset(drop)[t] == multiset(before)[t]
    ensures forall t :: t in all && t !in drop ==> t in multiset(now)
    ensures forall d, t :: d in drop && t in all && t !in drop && !IsLocal(t, locals) ==> d.price <= t.price
    ensures |drop| < count ==> forall t :: t in all && !IsLocal(t, locals) ==> t in drop
  {
    forall t | t in all
      ensures t !in drop ==> t in multiset(now)
      ensures |drop| < count && !IsLocal(t, locals) ==> t in drop
    {
      assert CountedAt(before, now, drop, [], all, t) && t in multiset(before);
      assert t in multiset(drop) <==> t in drop;
    }
  }

  ghost function Senders(txs: seq<Tx>): set<Addr> {
    set i | 0 <= i < |txs| :: txs[i].sender
  }

  /** Nothing pending is already included in the chain. */
  ghost predicate NoneStale(p: Pool, chain: Chain, a: Addr) {
    forall n :: n in Of(p.pending, a) ==> chain.nonce(a) <= n
  }

  /** The steps of a rebase put together: reinjection, demotion, new virtual nonces. */
  lemma RebaseKeeps(p: Pool, p0: Pool, p1: Pool, p2: Pool, q: Pool, chain: Chain, reinject: seq<Tx>, a: Addr)
    requires p0 == p.(managed := map[]) && Steady(p0, p1, chain, Senders(reinject), {}) && (reinject == [] ==> p1 == p0)
    requires p2.managed == p1.managed && q == p2.(managed := q.managed) && (NoGap(p1, a) ==> FromBase(p2, chain, a))
    requires a !in q.pending ==> Virtual(q.managed, chain, a) == Virtual(p2.managed, chain, a)
    requires a in q.pending && FromBase(p2, chain, a) ==> Contiguous(q, chain, a)
    requires NoGap(p, a) && a !in Senders(reinject)
    ensures FromBase(q, chain, a)
    ensures a in q.pending || reinject == [] || NoneStale(p, chain, a) ==> Contiguous(q, chain, a)
  {
    assert NoGap(p0, a) && NoGap(p1, a) && FromBase(p2, chain, a);
    var hi: nat :| Interval(Of(p2.pending, a), chain.nonce(a), hi);
    assert Interval(Of(q.pending, a), chain.nonce(a), hi);
    if NoneStale(p, chain, a) {
      assert AtBase(p0, chain, a) && AtBase(p1, chain, a);
    }
  }

  datatype AddResult = Refused(reason: Reason) | Pooled(replaced: bool)

  /** Only remote transactions were dropped, none of them dearer than a remote one that stays. */
  ghost predicate DropsCheapest(was: set<Tx>, now: set<Tx>, locals: set<Addr>) {
    && now <= was && (forall d :: d in was && d !in now ==> d.sender !in locals)
    && forall d, t :: d in was && d !in now && t in now && t.sender !in locals ==> d.price <= t.price
  }

  /** Refused before any room was made for it. */
  ghost predicate TurnedAway(r: AddResult) {
    r.Refused? && r.reason != ReplaceUnderpriced
  }

  ghost predicate AllTurnedAway(results: seq<AddResult>) {
    forall i :: 0 <= i < |results| ==> TurnedAway(results[i])
  }

  /** No pending transaction is lost. */
  ghost predicate AllPending(p: Pool, q: Pool) {
    forall t {:trigger Pends(q, t)} :: Pends(p, t) ==> Pends(q, t)
  }

  /** The contiguous ones of these accounts are settled. */
  ghost predicate SettlesAll(p: Pool, q: Pool, chain: Chain, accounts: set<Addr>) {
    forall a {:trigger Settled(q, chain, a)} :: a in accounts && Contiguous(p, chain, a) ==> Settled(q, chain, a)
  }

  lemma MembersOf(s: seq<Addr>, accounts: set<Addr>)
    requires multiset(s) == multiset(accounts)
    ensures Members(s) == accounts
  {
    forall a ensures a in Members(s) <==> a in accounts {
      assert a in multiset(s) <==> a in s;
    }
  }

  lemma PendingKept(p: Pool, q: Pool, r: Pool, a: Addr)
    requires AllPending(p, q) && Touches(q, r, a)
    requires forall n :: n in Of(q.pending, a) ==> n in Of(r.pending, a) && Of(r.pending, a)[n] == Of(q.pending, a)[n]
    ensures AllPending(p, r)
  {
    forall t | Pends(p, t) ensures Pends(r, t) {
      assert Pends(q, t);
      if t.sender != a {
        assert SameAccount(q, r, t.sender);
      }
    }
  }

  lemma SettledMore(p: Pool, q: Pool, r: Pool, chain: Chain, accounts: seq<Addr>, i: nat)
    requires i < |accounts| && SettlesAll(p, q, chain, Members(accounts[..i]))
    requires Steady(q, r, chain, {accounts[i]}, {}) &&
               (Contiguous(p, chain, accounts[i]) ==> Settled(r, chain, accounts[i]))
    ensures SettlesAll(p, r, chain, Members(accounts[..i + 1]))
  {
    MembersGrow(accounts, i);
    forall b | b in Members(accounts[..i + 1]) && Contiguous(p, chain, b) ensures Settled(r, chain, b) {
      if b != accounts[i] {
        assert Settled(q, chain, b);
      }
    }
  }

  /** One more account promoted on the way. */
  lemma PromotionSettles(p: Pool, q: Pool, r: Pool, chain: Chain, accounts: seq<Addr>, i: nat,
                         local: bool, cap: nat, lo: nat, hi: nat)
    requires PoolOk(q) && i < |accounts| && AccountPromoted(q, r, chain, accounts[i], local, cap, lo, hi)
    requires Steady(p, q, chain, Members(accounts), {}) && Steady(q, r, chain, {accounts[i]}, {})
    requires AllPending(p, q) && SettlesAll(p, q, chain, Members(accounts[..i]))
    ensures AllPending(p, r) && SettlesAll(p, r, chain, Members(accounts[..i + 1]))
  {
    var a := accounts[i];
    assert AccountOk(q, a);
    PromotionKeepsPending(q, r, chain, a, local, cap, lo, hi);
    PendingKept(p, q, r, a);
    if Contiguous(p, chain, a) {
      assert Contiguous(q, chain, a);
      PromotionContiguous(q, r, chain, a, local, cap, lo, hi);
    }
    SettledMore(p, q, r, chain, accounts, i);
  }

  lemma PromotionKeepsPending(q: Pool, r: Pool, chain: Chain, a: Addr, local: bool, cap: nat, lo: nat, hi: nat)
    requires AccountOk(q, a) && AccountPromoted(q, r, chain, a, local, cap, lo, hi)
    ensures forall n :: n in Of(q.pending, a) ==> n in Of(r.pending, a) && Of(r.pending, a)[n] == Of(q.pending, a)[n]
  {
    FitIs(q, chain, a);
    FitKnown(q, Fit(q, chain, a), chain.nonce(a), a);
  }

  class TxPool {
    const limits: Limits
    const priced: TxPricedList
    var st: Pool
    var chain: Chain
    var locals: set<Addr>
    var beats: map<Addr, nat>
    var gasPrice: nat

    /** Every known transaction outside `exempt` has an entry in the price heap. */
    ghost predicate Covered(exempt: set<Tx>)
      reads this, priced
    {
      priced.Valid() && Covers(priced.items, st.all - exempt)
    }

    ghost predicate Valid()
      reads this, priced
    {
      PoolOk(st) && Covered({})
    }

    /** What every run keeps besides: beyond the limits there are only local transactions and at most one remote. */
    ghost predicate Bounded()
      reads this
    {
      WithinLimit(st.all, locals, Limit())
    }

    constructor (limits: Limits, chain: Chain, price: nat)
      ensures Valid() && Bounded() && fresh(priced) && this.limits == limits && this.chain == chain
      ensures st == Pool(map[], map[], {}, map[]) && forall a :: Contiguous(st, chain, a)
    {
      this.limits, this.chain := limits, chain;
      priced := new TxPricedList();
      st := Pool(map[], map[], {}, map[]);
      locals, beats, gasPrice := {}, map[], price;
    }

    // -------------------------------------------------------------------------
    // Known transactions and the price heap
    // -------------------------------------------------------------------------

    method Forget(tx: Tx, ghost exempt: set<Tx>)
      requires Covered(exempt)
      modifies this`st, priced
      ensures Covered(exempt) && st == old(st).(all := old(st).all - {tx})
    {
      st := st.(all := st.all - {tx});
      priced.Removed(st.all);
      forall t | t in st.all - exempt ensures t in multiset(priced.items) {
        assert t in old(st.all) - exempt;
      }
    }

    method ForgetAll(txs: set<Tx>)
      requires Covered({})
      modifies this`st, priced
      ensures Covered({}) && st == old(st).(all := old(st).all - txs)
    {
      var todo := txs;
      while todo != {}
        invariant todo <= txs && Covered({}) && st == old(st).(all := old(st).all - (txs - todo))
        decreases |todo|
      {
        var tx :| tx in todo;
        Forget(tx, {});
        todo := todo - {tx};
      }
    }

    method Know(tx: Tx, ghost exempt: set<Tx>)
      requires Covered(exempt)
      modifies this`st, priced
      ensures Covered(exempt) && st == old(st).(all := old(st).all + {tx})
    {
      st := st.(all := st.all + {tx});
      priced.Put(tx);
      forall t | t in st.all - exempt ensures t in multiset(priced.items) {
        assert t != tx ==> t in old(st.all) - exempt;
      }
    }

    // -------------------------------------------------------------------------
    // Enqueueing and removing
    // -------------------------------------------------------------------------

    /** Inserts into the future queue unless the transaction it would replace is nearly as well priced. */
    method EnqueueTx(tx: Tx, ghost exempt: set<Tx>) returns (inserted: bool, replaced: bool)
      requires Covered(exempt)
      modifies this`st, priced
      ensures Covered(exempt) && st == Enqueued(old(st), tx, limits.priceBump)
      ensures inserted == Accepts(Of(old(st.queue), tx.sender), tx, limits.priceBump)
      ensures replaced == (inserted && tx.nonce in Of(old(st.queue), tx.sender))
    {
      var list := Of(st.queue, tx.sender);
      if !Accepts(list, tx, limits.priceBump) {
        return false, false;
      }
      st := st.(queue := st.queue[tx.sender := list[tx.nonce := tx]]);
      inserted, replaced := true, tx.nonce in list;
      if replaced {
        Forget(list[tx.nonce], exempt);
      }
      Know(tx, exempt);
    }

    /** Queues known transactions of one account again; with none of their nonces queued, nothing is displaced. */
    method RequeueAll(a: Addr, moved: Items, ghost exempt: set<Tx>)
      requires Covered(exempt) && Listed(moved, a, st.all) && Of(st.queue, a).Keys !! moved.Keys
      modifies this`st, priced
      ensures Covered(exempt) && st == old(st).(queue := WithQueue(old(st).queue, a, moved))
    {
      var todo := moved.Keys;
      assert Except(moved, todo) == map[] && Except(moved, {}) == moved;
      while todo != {}
        invariant Covered(exempt) && todo <= moved.Keys
        invariant st == old(st).(queue := WithQueue(old(st).queue, a, Except(moved, todo)))
        decreases |todo|
      {
        var n :| n in todo;
        RequeueStep(st, old(st.queue), a, Except(moved, todo), moved[n], limits.priceBump);
        ExceptStep(moved, todo, n);
        var inserted, replaced := EnqueueTx(moved[n], exempt);
        todo := todo - {n};
      }
    }

    /** Removes a known transaction; later pending ones of the account go back to the queue. */
    method RemoveTx(tx: Tx, ghost exempt: set<Tx>)
      requires PoolOk(st) && Covered(exempt)
      modifies this`st, this`beats, priced
      ensures PoolOk(st) && Covered(exempt) && st == Removed(old(st), chain, tx)
      ensures st.all == old(st.all) - {tx} && Steady(old(st), st, chain, {}, {})
      ensures tx.nonce !in Of(old(st).pending, tx.sender) ==> beats == old(beats)
    {
      RemovedKeeps(st, chain, tx);
      if tx !in st.all {
        return;
      }
      assert AccountOk(st, tx.sender);
      var a, n := tx.sender, tx.nonce;
      Forget(tx, exempt);
      if a in st.pending && n in st.pending[a] {
        var invalids := AboveNonce(st.pending[a], n);
        var left := BelowNonce(st.pending[a], n);
        if left == map[] {
          st, beats := st.(pending := st.pending - {a}), beats - {a};
        } else {
          st := st.(pending := st.pending[a := left]);
          RequeueAll(a, invalids, exempt);
        }
        if Virtual(st.managed, chain, a) > n {
          st := st.(managed := st.managed[a := n]);
        }
        return;
      }
      if a in st.queue {
        var left := st.queue[a] - {n};
        st := st.(queue := if left == map[] then st.queue - {a} else st.queue[a := left]);
      }
    }

    /** Removes transactions already popped off the price heap, after which the heap covers all that is left. */
    method RemoveAll(drop: seq<Tx>)
      requires PoolOk(st) && Covered(set t | t in drop)
      modifies this`st, this`beats, priced
      ensures Valid() && st.all == old(st.all) - (set t | t in drop) && Steady(old(st), st, chain, {}, {})
    {
      ghost var exempt := set t | t in drop;
      var i := 0;
      while i < |drop|
        invariant 0 <= i <= |drop|
        invariant PoolOk(st) && Covered(exempt) && Steady(old(st), st, chain, {}, {})
        invariant st.all == old(st.all) - (set t | t in drop[..i])
      {
        ghost var was := st;
        RemoveTx(drop[i], exempt);
        SteadyTrans(old(st), was, st, chain, {}, {});
        assert drop[..i + 1] == drop[..i] + [drop[i]];
        i := i + 1;
      }
      assert drop[..|drop|] == drop;
      assert st.all - exempt == st.all - {};
    }

    // -------------------------------------------------------------------------
    // Promotion
    // -------------------------------------------------------------------------

    /** Inserts into the pending list; the transaction it displaces, or it itself if refused, is forgotten. */
    method PromoteTx(tx: Tx, now: nat)
      requires Covered({})
      modifies this`st, this`beats, priced
      ensures Covered({}) && st == Promoted(old(st), tx, limits.priceBump)
    {
      var a: Addr, list: Items := tx.sender, Of(st.pending, tx.sender);
      if !Accepts(list, tx, limits.priceBump) {
        Forget(tx, {});
        return;
      }
      st := st.(pending := st.pending[a := list[tx.nonce := tx]]);
      if tx.nonce in list {
        Forget(list[tx.nonce], {});
      }
      if tx !in st.all {
        Know(tx, {});
      }
      beats := beats[a := now];
      st := st.(managed := st.managed[a := tx.nonce + 1]);
    }

    /** Promotes a run of known transactions of nonces that are not pending: each is inserted, none displaced. */
    method PromoteRun(a: Addr, fit: Items, lo: nat, hi: nat, now: nat)
      requires Covered({}) && lo <= hi && RunFree(st, a, fit, lo, hi)
      modifies this`st, this`beats, priced
      ensures Covered({}) && st == RunPromoted(old(st), a, fit, lo, hi)
    {
      RunStarts(st, a, fit, lo);
      var n := lo;
      while n < hi
        invariant Covered({}) && lo <= n <= hi && st == RunPromoted(old(st), a, fit, lo, n)
      {
        assert Free(old(st), a, fit, n);
        PromoteNext(a, n, fit[n], now, old(st), fit, lo);
        n := n + 1;
      }
    }

    /** Promotes the next transaction of a run. */
    method PromoteNext(a: Addr, n: nat, tx: Tx, now: nat, ghost p: Pool, ghost fit: Items, ghost lo: nat)
      requires Covered({}) && lo <= n && st == RunPromoted(p, a, fit, lo, n) && Free(p, a, fit, n) && tx == fit[n]
      modifies this`st, this`beats, priced
      ensures Covered({}) && st == RunPromoted(p, a, fit, lo, n + 1)
    {
      RunStep(p, a, fit, lo, n, limits.priceBump);
      PromoteTx(tx, now);
    }

    /** Takes the executable nonces lo, ..., hi - 1 out of the queue and promotes them. */
    method MoveRun(a: Addr, ghost fit: Items, lo: nat, hi: nat, now: nat)
      requires Covered({}) && a in st.queue && fit == st.queue[a] && lo <= hi && RunFree(st, a, fit, lo, hi)
      modifies this`st, this`beats, priced
      ensures Covered({})
      ensures st == RunPromoted(old(st).(queue := old(st).queue[a := Outside(fit, lo, hi)]), a, fit, lo, hi)
    {
      var list := st.queue[a];
      st := st.(queue := st.queue[a := Outside(list, lo, hi)]);
      forall n | lo <= n < hi ensures Free(st, a, fit, n) {
        assert Free(old(st), a, fit, n);
      }
      PromoteRun(a, list, lo, hi, now);
    }

    /** Drops the stale and the unpayable transactions of a queue. */
    method DropUnfit(a: Addr)
      requires Covered({}) && a in st.queue
      modifies this`st, priced
      ensures Covered({})
      ensures var fit := Fit(old(st), chain, a);
              st == old(st).(queue := old(st).queue[a := fit], all := old(st).all - Lost(old(st).queue[a], fit))
    {
      var list := st.queue[a];
      var kept := FromNonce(list, chain.nonce(a));
      ForgetAll(Lost(list, kept));
      var fit := Payable(kept, false, chain.balance(a), chain.maxGas);
      ForgetAll(Lost(kept, fit));
      st := st.(queue := st.queue[a := fit]);
      LostTwice(list, kept, fit);
    }

    /** Caps the queue of a remote account and deletes an empty one. */
    method CapQueue(a: Addr)
      requires Covered({}) && a in st.queue
      modifies this`st, priced
      ensures Covered({}) && Capped(old(st).queue[a], Of(st.queue, a), a in locals, limits.accountQueue)
      ensures var f := Of(st.queue, a);
              st == old(st).(queue := Filed(old(st).queue, a, f), all := old(st).all - Lost(old(st).queue[a], f))
    {
      var list := st.queue[a];
      var left := list;
      assert Lost(list, list) == {};
      if a !in locals {
        left := Lowest(list, limits.accountQueue);
        ForgetAll(Lost(list, left));
      }
      st := st.(queue := Filed(st.queue, a, left));
      assert Of(st.queue, a) == left;
    }

    /**
     Moves what has become executable in one account, with nonces lo, ..., hi - 1,
     from its queue to its pending list.
     */
    method PromoteAccount(a: Addr, now: nat) returns (ghost lo: nat, ghost hi: nat)
      requires Valid()
      modifies this`st, this`beats, priced
      ensures Valid() && Steady(old(st), st, chain, {a}, {})
      ensures AccountPromoted(old(st), st, chain, a, a in locals, limits.accountQueue, lo, hi)
    {
      ghost var p := st;
      assert AccountOk(p, a);
      FitIs(p, chain, a);
      if a !in st.queue {
        lo, hi := 0, 0;
        NothingQueued(p, chain, a, a in locals, limits.accountQueue);
      } else {
        lo, hi := PromoteQueue(a, now);
      }
      PromotionKeeps(p, st, chain, a, a in locals, limits.accountQueue, lo, hi);
    }

    method PromoteQueue(a: Addr, now: nat) returns (ghost lo: nat, ghost hi: nat)
      requires Valid() && a in st.queue
      modifies this`st, this`beats, priced
      ensures Covered({}) && AccountPromoted(old(st), st, chain, a, a in locals, limits.accountQueue, lo, hi)
    {
      ghost var p := st;
      assert AccountOk(p, a);
      FitIs(p, chain, a);
      FitKnown(p, Fit(p, chain, a), chain.nonce(a), a);
      DropUnfit(a);
      lo, hi := PromoteFit(a, now, p, Fit(p, chain, a));
    }

    method PromoteFit(a: Addr, now: nat, ghost p: Pool, ghost fit: Items) returns (ghost lo: nat, ghost hi: nat)
      requires Covered({}) && st == Pool(p.pending, p.queue[a := fit], p.all - Lost(Of(p.queue, a), fit), p.managed)
      requires Listed(Of(p.queue, a), a, p.all) && FromQueue(fit, Of(p.queue, a), 0)
      requires Listed(fit, a, st.all) && fit.Keys !! Of(st.pending, a).Keys
      modifies this`st, this`beats, priced
      ensures Covered({})
      ensures PromotedFrom(p, st, a, Start(p, chain, a), fit, a in locals, limits.accountQueue, lo, hi)
    {
      var first, last := ReadyRange(st.queue[a], Virtual(st.managed, chain, a));
      lo, hi := first, last;
      RunIsFree(st, a, fit, Start(p, chain, a), lo, hi);
      UpdateTwice(p.queue, a, fit, Outside(fit, lo, hi));
      MoveRun(a, fit, first, last, now);
      CapRest(a, p, fit, lo, hi);
    }

    method CapRest(a: Addr, ghost p: Pool, ghost fit: Items, ghost lo: nat, ghost hi: nat)
      requires Covered({}) && a in st.queue && ExecutableRange(fit, Start(p, chain, a), lo, hi)
      requires st == RunPromoted(Pool(p.pending, p.queue[a := Outside(fit, lo, hi)],
                                      p.all - Lost(Of(p.queue, a), fit), p.managed), a, fit, lo, hi)
      requires Listed(Of(p.queue, a), a, p.all) && FromQueue(fit, Of(p.queue, a), 0)
      modifies this`st, priced
      ensures Covered({})
      ensures PromotedFrom(p, st, a, Start(p, chain, a), fit, a in locals, limits.accountQueue, lo, hi)
    {
      CapQueue(a);
      PromotedFromIs(p, st, a, Start(p, chain, a), fit, a in locals, limits.accountQueue, lo, hi);
    }

    // -------------------------------------------------------------------------
    // Truncation
    // -------------------------------------------------------------------------

    /** A truncation step: pending transactions are dropped, and contiguity survives. */
    ghost predicate Cuts(p: Pool)
      reads this
    {
      OnlyCut(p, st) && Steady(p, st, chain, {}, {})
    }

    /** Drops the highest pending transaction of an account. */
    method CutLast(a: Addr) returns (ghost top: nat)
      requires Valid() && a in st.pending && st.pending[a] != map[]
      modifies this`st, priced
      ensures Valid() && Cuts(old(st))
      ensures IsGreatest(old(st).pending[a], top) && st.pending == old(st).pending[a := old(st).pending[a] - {top}]
    {
      var list := st.pending[a];
      var last := Highest(list);
      top := last;
      CutKeeps(st, chain, a, last);
      CutOnly(st, chain, a, last);
      var managed := if Virtual(st.managed, chain, a) > last then st.managed[a := last] else st.managed;
      st := st.(pending := st.pending[a := list - {last}], managed := managed);
      Forget(list[last], {});
    }

    /** Cuts the lists of all these accounts, which are the longest remote ones, by one. */
    method CutRound(offs: seq<Addr>, total: nat, ghost m: map<Addr, Items>, ghost level: nat) returns (left: int)
      requires Valid() && total == Total(st.pending)
      requires Levelled(m, st.pending, locals, level + 1) && Distinct(offs)
      requires AtLevel(st.pending, locals, offs, level + 1) && RestBelow(st.pending, locals, offs, level)
      modifies this`st, priced
      ensures Valid() && Cuts(old(st)) && left == Total(st.pending) && left == total - |offs|
      ensures Levelled(m, st.pending, locals, level)
      ensures AtLevel(st.pending, locals, offs, level) && SameRest(old(st).pending, st.pending, offs)
    {
      left := total;
      SteadyRefl(st, chain);
      var i := 0;
      while i < |offs|
        invariant 0 <= i <= |offs| && CutSoFar(old(st), m, offs, i, level) && left == Total(st.pending) &&
                    left == total - i
      {
        CutNext(offs, i, left, old(st), m, level);
        left, i := left - 1, i + 1;
      }
      RoundDone(m, old(st).pending, st.pending, locals, offs, level);
    }

    /** How a round of cuts stands after the first `i` accounts. */
    ghost predicate CutSoFar(p: Pool, m: map<Addr, Items>, offs: seq<Addr>, i: nat, level: nat)
      requires i <= |offs|
      reads this, priced
    {
      Valid() && Cuts(p) && Midway(m, p.pending, st.pending, offs, i, level)
    }

    method CutNext(offs: seq<Addr>, i: nat, ghost total: int, ghost p: Pool, ghost m: map<Addr, Items>,
                   ghost level: nat)
      requires i < |offs| && Distinct(offs) && CutSoFar(p, m, offs, i, level) && total == Total(st.pending)
      requires Levelled(m, p.pending, locals, level + 1) && AtLevel(p.pending, locals, offs, level + 1)
      modifies this`st, priced
      ensures CutSoFar(p, m, offs, i + 1, level) && Total(st.pending) == total - 1
    {
      ghost var was := st;
      assert offs[i] !in offs[..i] && SameList(p.pending, was.pending, offs[i]);
      var top := CutLast(offs[i]);
      MidwayStep(m, p.pending, was.pending, locals, offs, i, level, top);
      TotalDrop(was.pending, offs[i], top);
      OnlyCutTrans(p, was, st);
      SteadyTrans(p, was, st, chain, {}, {});
    }

    /** Cuts these longest lists round by round until the pool fits or they are down to the threshold. */
    method LowerTo(offs: seq<Addr>, threshold: nat, total: nat, ghost m: map<Addr, Items>, ghost level: nat,
                   ghost p: Pool)
      returns (left: nat, ghost lower: nat)
      requires Valid() && Cuts(p) && total == Total(st.pending) && offs != [] && Distinct(offs)
      requires Levelled(m, st.pending, locals, level) && AtLevel(st.pending, locals, offs, level)
      requires threshold <= level && RestBelow(st.pending, locals, offs, threshold)
      requires NoneAbove(m, locals, level) || Overflows(m, locals, limits.globalSlots, level + 1)
      modifies this`st, priced
      ensures Valid() && Cuts(p) && left == Total(st.pending)
      ensures Levelled(m, st.pending, locals, lower) && AtLevel(st.pending, locals, offs, lower)
      ensures SameRest(old(st).pending, st.pending, offs)
      ensures threshold <= lower <= level && (left <= limits.globalSlots || lower == threshold)
      ensures NoneAbove(m, locals, lower) || Overflows(m, locals, limits.globalSlots, lower + 1)
    {
      left, lower := total, level;
      while left > limits.globalSlots && |st.pending[offs[|offs| - 1]]| > threshold
        invariant Lowering(p, old(st).pending, m, offs, lower) && left == Total(st.pending) &&
                    threshold <= lower <= level
        decreases left
      {
        left, lower := LowerOne(offs, threshold, left, m, lower, p, old(st).pending);
      }
    }

    /** How the rounds of cuts stand: the lists are at the level, which is not lower than it had to be. */
    ghost predicate Lowering(p: Pool, first: map<Addr, Items>, m: map<Addr, Items>, offs: seq<Addr>, lower: nat)
      reads this, priced
    {
      && Valid() && Cuts(p) && Levelled(m, st.pending, locals, lower) && AtLevel(st.pending, locals, offs, lower)
      && (offs != [] ==> |st.pending[offs[|offs| - 1]]| == lower) && SameRest(first, st.pending, offs)
      && (NoneAbove(m, locals, lower) || Overflows(m, locals, limits.globalSlots, lower + 1))
    }

    method LowerOne(offs: seq<Addr>, ghost threshold: nat, total: nat, ghost m: map<Addr, Items>, ghost level: nat,
                    ghost p: Pool, ghost first: map<Addr, Items>)
      returns (left: nat, ghost lower: nat)
      requires Valid() && Cuts(p) && total == Total(st.pending) && total > limits.globalSlots && offs != [] &&
                 Distinct(offs)
      requires Levelled(m, st.pending, locals, level) && AtLevel(st.pending, locals, offs, level)
      requires threshold < level && SameRest(first, st.pending, offs) && RestBelow(first, locals, offs, threshold)
      modifies this`st, priced
      ensures Valid() && Cuts(p) && left == Total(st.pending) && left < total && lower == level - 1
      ensures Levelled(m, st.pending, locals, lower) && AtLevel(st.pending, locals, offs, lower)
      ensures SameRest(first, st.pending, offs)
      ensures Overflows(m, locals, limits.globalSlots, lower + 1)
    {
      ghost var was := st;
      lower := level - 1;
      RestSame(first, st.pending, locals, offs, threshold);
      BelowMore(st.pending, locals, offs, threshold, lower);
      assert Overflows(m, locals, limits.globalSlots, lower + 1);
      left := CutRound(offs, total, m, lower);
      SameRestTrans(first, was.pending, st.pending, offs);
      OnlyCutTrans(p, was, st);
      SteadyTrans(p, was, st, chain, {}, {});
    }

    /** The state of the equalisation: everything is at the level, which is not lower than it had to be. */
    ghost predicate Sharing(m: map<Addr, Items>, offs: seq<Addr>, spammers: set<Addr>, level: nat)
      reads this
    {
      && Levelled(m, st.pending, locals, level) &&
          Shares(st.pending, locals, limits.accountSlots, offs, spammers, level)
      && (NoneAbove(m, locals, level) || Overflows(m, locals, limits.globalSlots, level + 1))
      && (offs == [] ==> TopLevel(st.pending, limits.accountSlots, spammers, level))
    }

    /**
     Equalises the pending lists of the remote accounts above their guaranteed
     slots, longest first, until the pool fits or they are all down to those slots.
     */
    method TruncatePending() returns (ghost level: nat)
      requires Valid()
      modifies this`st, priced
      ensures Valid() && Cuts(old(st))
      ensures Truncated(old(st).pending, st.pending, locals, limits.globalSlots, limits.accountSlots, level)
    {
      var total := Count(st.pending);
      SteadyRefl(st, chain);
      if total <= limits.globalSlots {
        level := limits.accountSlots + total;
        SmallTotal(st.pending, locals, level);
      } else {
        var offenders;
        total, offenders, level := Equalise(total);
        if total > limits.globalSlots && |offenders| > 0 {
          level := Reduce(offenders, total, old(st), level);
        }
      }
    }

    /**
     Takes the accounts above their slots one by one, longest first, each time
     cutting the earlier ones to the same length.
     */
    method Equalise(total: nat) returns (left: nat, offenders: seq<Addr>, ghost level: nat)
      requires Valid() && total == Total(st.pending)
      modifies this`st, priced
      ensures Valid() && Cuts(old(st)) && left == Total(st.pending)
      ensures exists spammers :: Sharing(old(st).pending, offenders, spammers, level) &&
                (left > limits.globalSlots ==> spammers == {})
      ensures left > limits.globalSlots ==> AtLevel(st.pending, locals, offenders, level)
    {
      SteadyRefl(st, chain);
      var spammers := set a | a in st.pending && a !in locals && |st.pending[a]| > limits.accountSlots;
      left, offenders := total, [];
      level := SharesStart(st.pending, locals, limits.accountSlots, spammers);
      while left > limits.globalSlots && spammers != {}
        invariant Valid() && Cuts(old(st)) && left == Total(st.pending)
        invariant Sharing(old(st).pending, offenders, spammers, level)
        invariant left > limits.globalSlots ==> AtLevel(st.pending, locals, offenders, level)
        decreases |spammers|
      {
        var offender := PopLongest(st.pending, spammers);
        left, level := TakeOffender(offender, left, offenders, spammers, old(st), level);
        offenders, spammers := offenders + [offender], spammers - {offender};
      }
    }

    /** Cuts the earlier offenders down to the length of the next one's list. */
    method TakeOffender(offender: Addr, total: nat, offs: seq<Addr>, ghost spammers: set<Addr>, ghost p: Pool,
                        ghost level: nat)
      returns (left: nat, ghost lower: nat)
      requires Valid() && Cuts(p) && total == Total(st.pending) && total > limits.globalSlots
      requires Longest(st.pending, spammers, offender)
      requires Sharing(p.pending, offs, spammers, level) && AtLevel(st.pending, locals, offs, level)
      modifies this`st, priced
      ensures Valid() && Cuts(p) && left == Total(st.pending)
      ensures Sharing(p.pending, offs + [offender], spammers - {offender}, lower)
      ensures left > limits.globalSlots ==> AtLevel(st.pending, locals, offs + [offender], lower)
    {
      ghost var was := st;
      NextBelow(st.pending, locals, limits.accountSlots, offs, spammers, level, offender);
      left, lower := total, level;
      if |offs| > 0 {
        left, lower := LowerTo(offs, |st.pending[offender]|, total, p.pending, level, p);
      }
      OffenderJoins(was.pending, st.pending, locals, limits.accountSlots, offs, spammers, level, offender, lower);
    }

    /** Cuts all offenders alike, down to the guaranteed slots if need be. */
    method Reduce(offs: seq<Addr>, total: nat, ghost p: Pool, ghost level: nat) returns (ghost lower: nat)
      requires Valid() && Cuts(p) && total == Total(st.pending) && offs != []
      requires Sharing(p.pending, offs, {}, level) && AtLevel(st.pending, locals, offs, level)
      modifies this`st, priced
      ensures Valid() && Cuts(p)
      ensures Truncated(p.pending, st.pending, locals, limits.globalSlots, limits.accountSlots, lower)
    {
      var left;
      left, lower := LowerTo(offs, limits.accountSlots, total, p.pending, level, p);
    }

    /** A trimming step: queued transactions are dropped, and contiguity survives. */
    ghost predicate Trims(p: Pool)
      reads this
    {
      OnlyTrimmed(p, st) && Steady(p, st, chain, {}, {})
    }

    /** Removes one queued transaction. */
    method DropQueued(a: Addr, n: nat)
      requires Valid() && a in st.queue && n in st.queue[a]
      modifies this`st, this`beats, priced
      ensures Valid() && Trims(old(st)) && st.queue == Filed(old(st).queue, a, old(st).queue[a] - {n}) &&
                beats == old(beats)
    {
      RemovedTrims(st, chain, a, n);
      assert AccountOk(st, a);
      RemoveTx(st.queue[a][n], {});
    }

    /** Removes every queued transaction of an account. */
    method DropQueue(a: Addr)
      requires Valid()
      modifies this`st, this`beats, priced
      ensures Valid() && Trims(old(st)) && Popped(old(st).queue, st.queue, {a}) && beats == old(beats)
    {
      SteadyRefl(st, chain);
      while a in st.queue && st.queue[a] != map[]
        invariant Valid() && Trims(old(st)) && SameBut(old(st).queue, st.queue, a) && beats == old(beats)
        decreases |Of(st.queue, a)|
      {
        DropNext(a, old(st));
      }
    }

    method DropNext(a: Addr, ghost p: Pool)
      requires Valid() && Trims(p) && SameBut(p.queue, st.queue, a) && a in st.queue && st.queue[a] != map[]
      modifies this`st, this`beats, priced
      ensures Valid() && Trims(p) && SameBut(p.queue, st.queue, a) && |Of(st.queue, a)| < |old(st).queue[a]| &&
                beats == old(beats)
    {
      ghost var was := st;
      var n :| n in st.queue[a];
      DropQueued(a, n);
      KeysWithout(was.queue[a], n);
      forall b ensures Of(st.queue, b) == if b == a then was.queue[a] - {n} else Of(was.queue, b) {
        FiledAt(was.queue, a, was.queue[a] - {n}, b);
      }
      OnlyTrimmedTrans(p, was, st);
      SteadyTrans(p, was, st, chain, {}, {});
    }

    /** Removes the `k` highest transactions of a longer queue. */
    method DropTail(a: Addr, k: nat)
      requires Valid() && a in st.queue && k < |st.queue[a]|
      modifies this`st, this`beats, priced
      ensures Valid() && Trims(old(st)) && a in st.queue && st.queue == old(st).queue[a := st.queue[a]]
      ensures |st.queue[a]| == |old(st).queue[a]| - k && IsLowest(old(st).queue[a], st.queue[a], |st.queue[a]|)
    {
      SteadyRefl(st, chain);
      LowestRefl(st.queue[a]);
      var i := 0;
      while i < k
        invariant 0 <= i <= k && Valid() && Trims(old(st)) && a in st.queue
        invariant st.queue == old(st).queue[a := st.queue[a]] && |st.queue[a]| == |old(st).queue[a]| - i
        invariant IsLowest(old(st).queue[a], st.queue[a], |st.queue[a]|)
      {
        DropLast(a, old(st));
        i := i + 1;
      }
    }

    method DropLast(a: Addr, ghost p: Pool)
      requires Valid() && Trims(p) && a in st.queue && a in p.queue && |st.queue[a]| > 1
      requires st.queue == p.queue[a := st.queue[a]] && IsLowest(p.queue[a], st.queue[a], |st.queue[a]|)
      modifies this`st, this`beats, priced
      ensures Valid() && Trims(p) && a in st.queue && st.queue == p.queue[a := st.queue[a]]
      ensures |st.queue[a]| == |old(st).queue[a]| - 1 && IsLowest(p.queue[a], st.queue[a], |st.queue[a]|)
    {
      ghost var was := st;
      var list := st.queue[a];
      var top := Highest(list);
      LowestStep(p.queue[a], list, top);
      DropQueued(a, top);
      UpdateTwice(p.queue, a, list, list - {top});
      OnlyTrimmedTrans(p, was, st);
      SteadyTrans(p, was, st, chain, {}, {});
    }

    /**
     Drops queued transactions of remote accounts beyond the global limit, the
     most recently active account first, until the queue fits or only local
     accounts are left.
     */
    method TruncateQueue() returns (ghost last: Addr)
      requires Valid()
      modifies this`st, this`beats, priced
      ensures Valid() && Trims(old(st))
      ensures QueueTrimmed(old(st).queue, st.queue, locals, old(beats), limits.globalQueue, last)
    {
      last := 0;
      SteadyRefl(st, chain);
      var queued := Count(st.queue);
      if queued <= limits.globalQueue {
        return;
      }
      var addresses := Elements(set a | a in st.queue && a !in locals);
      addresses := Heap.Sort(addresses, BeatKey(beats));
      last := DropLatest(addresses, queued - limits.globalQueue, old(beats));
    }

    /** How the trimming of the queue stands with the first `k` accounts left and `drop` transactions too many. */
    ghost predicate Trimming(p: Pool, addresses: seq<Addr>, k: nat, drop: nat)
      requires k <= |addresses|
      reads this, priced
    {
      && Valid() && Trims(p) && Popped(p.queue, st.queue, Members(addresses[k..]))
      && Total(st.queue) == limits.globalQueue + drop
    }

    /** Empties the queue of one more account. */
    method DropWhole(a: Addr, ghost addresses: seq<Addr>, ghost k: nat, ghost drop: nat, ghost p: Pool)
      requires k < |addresses| && addresses[k] == a && Trimming(p, addresses, k + 1, drop) && |Of(st.queue, a)| <= drop
      requires Members(addresses[k..]) == Members(addresses[k + 1..]) + {a}
      modifies this`st, this`beats, priced
      ensures Trimming(p, addresses, k, drop - |Of(old(st).queue, a)|)
    {
      ghost var before := st;
      DropQueue(a);
      PoppedMore(p.queue, before.queue, st.queue, Members(addresses[k + 1..]), a);
      OnlyTrimmedTrans(p, before, st);
      SteadyTrans(p, before, st, chain, {}, {});
    }

    method DropLatest(addresses: seq<Addr>, overflow: nat, ghost was: map<Addr, nat>) returns (ghost last: Addr)
      requires Valid() && Total(st.queue) == limits.globalQueue + overflow && 0 < overflow
      requires multiset(addresses) == multiset(set a | a in st.queue && a !in locals) &&
                 Heap.SortedBy(addresses, BeatKey(was))
      modifies this`st, this`beats, priced
      ensures Valid() && Trims(old(st))
      ensures QueueTrimmed(old(st).queue, st.queue, locals, was, limits.globalQueue, last)
    {
      last := 0;
      SteadyRefl(st, chain);
      ghost var m := st.queue;
      var drop, k := overflow, |addresses|;
      assert addresses[k..] == [];
      while drop > 0 && k > 0
        invariant 0 <= drop && 0 <= k <= |addresses| && Trimming(old(st), addresses, k, drop)
      {
        k := k - 1;
        var a := addresses[k];
        RemoteAt(m, locals, addresses, k);
        TailStep(addresses, k);
        assert Of(st.queue, a) == Of(m, a);
        var size := |Of(st.queue, a)|;
        if size <= drop {
          DropWhole(a, addresses, k, drop, old(st));
          drop := drop - size;
        } else {
          ghost var before := st;
          DropTail(a, drop);
          last := a;
          TailTrimmed(m, before.queue, st.queue, locals, was, limits.globalQueue, addresses, k);
          OnlyTrimmedTrans(old(st), before, st);
          SteadyTrans(old(st), before, st, chain, {}, {});
          return;
        }
      }
      WholeTrimmed(m, st.queue, locals, was, limits.globalQueue, addresses, k, last);
    }

    // -------------------------------------------------------------------------
    // Demotion
    // -------------------------------------------------------------------------

    /** Demotes what the chain state no longer allows to be pending in one account. */
    method DemoteAccount(a: Addr)
      requires Valid() && a in st.pending
      modifies this`st, this`beats, priced
      ensures Valid() && st == Demoted(old(st), chain, a)
    {
      assert AccountOk(st, a);
      DemotedKeeps(st, chain, a);
      BackKnown(st, chain, a);
      var list := st.pending[a];
      var kept := FromNonce(list, chain.nonce(a));
      var bad := Unpayables(kept, chain.balance(a), chain.maxGas);
      var sound := Payable(kept, true, chain.balance(a), chain.maxGas);
      ForgetAll(Lost(list, kept));
      ForgetAll(bad.Values);
      DemoteRest(a, kept - sound.Keys - bad.Keys, sound, old(st));
    }

    /** Queues the invalidated transactions again, and all of them if the chain nonce is missing. */
    method DemoteRest(a: Addr, invalids: Items, sound: Items, ghost p: Pool)
      requires Covered({}) && Listed(invalids, a, st.all) && Listed(sound, a, st.all)
      requires invalids.Keys !! Of(st.queue, a).Keys && sound.Keys !! Of(st.queue, a).Keys &&
                 sound.Keys !! invalids.Keys
      modifies this`st, this`beats, priced
      ensures Covered({})
      ensures var stays: Items := if chain.nonce(a) in sound then sound else map[];
              st == old(st).(pending := Filed(old(st).pending, a, stays),
                             queue := WithQueue(WithQueue(old(st).queue, a, invalids), a,
                                                Misplaced(sound, chain.nonce(a))))
    {
      RequeueAll(a, invalids, {});
      WithQueueOf(old(st).queue, a, invalids);
      var stays := sound;
      if sound != map[] && chain.nonce(a) !in sound {
        RequeueAll(a, sound, {});
        stays := map[];
      }
      if stays == map[] {
        beats := beats - {a};
      }
      st := st.(pending := Filed(st.pending, a, stays));
    }

    /** Demotes every account; a gapless pending list is left running from the chain nonce. */
    method DemoteUnexecutables()
      requires Valid()
      modifies this`st, this`beats, priced
      ensures Valid() && st.managed == old(st).managed && st.all <= old(st).all
      ensures forall a {:trigger FromBase(st, chain, a)} :: NoGap(old(st), a) ==> FromBase(st, chain, a)
      ensures forall a :: a in st.pending ==> st.pending[a] != map[]
    {
      var todo := st.pending.Keys;
      DemotionStarts(st, chain);
      while todo != {}
        invariant Valid() && st.managed == old(st).managed && st.all <= old(st).all
        invariant AllDemotedSoFar(old(st), st, chain, todo)
        decreases |todo|
      {
        var a :| a in todo;
        assert DemotedSoFar(old(st), st, chain, todo, a);
        DemotionStep(old(st), st, chain, todo, a);
        DemoteAccount(a);
        todo := todo - {a};
      }
      forall a ensures NoGap(old(st), a) ==> FromBase(st, chain, a)
               ensures a in st.pending ==> st.pending[a] != map[] {
        assert DemotedSoFar(old(st), st, chain, {}, a);
      }
    }

    // -------------------------------------------------------------------------
    // Promotion of many accounts
    // -------------------------------------------------------------------------

    method PromoteAccounts(accounts: seq<Addr>, now: nat)
      requires Valid()
      modifies this`st, this`beats, priced
      ensures Valid() && st.all <= old(st).all && Steady(old(st), st, chain, Members(accounts), {})
      ensures AllPending(old(st), st) && SettlesAll(old(st), st, chain, Members(accounts))
    {
      SteadyRefl(st, chain);
      SteadyWiden(st, st, chain, {}, {}, Members(accounts), {});
      var i := 0;
      while i < |accounts|
        invariant 0 <= i <= |accounts| && Valid() && st.all <= old(st).all && AllPending(old(st), st)
        invariant Steady(old(st), st, chain, Members(accounts), {}) &&
                    SettlesAll(old(st), st, chain, Members(accounts[..i]))
      {
        PromoteOne(accounts, i, now, old(st));
        i := i + 1;
      }
      assert accounts[..i] == accounts;
    }

    method PromoteOne(accounts: seq<Addr>, i: nat, now: nat, ghost p: Pool)
      requires Valid() && i < |accounts| && Steady(p, st, chain, Members(accounts), {})
      requires AllPending(p, st) && SettlesAll(p, st, chain, Members(accounts[..i]))
      modifies this`st, this`beats, priced
      ensures Valid() && st.all <= old(st).all && Steady(p, st, chain, Members(accounts), {})
      ensures AllPending(p, st) && SettlesAll(p, st, chain, Members(accounts[..i + 1]))
    {
      ghost var was := st;
      var lo, hi := PromoteAccount(accounts[i], now);
      PromotionSettles(p, was, st, chain, accounts, i, accounts[i] in locals, limits.accountQueue, lo, hi);
      SteadyWiden(was, st, chain, {accounts[i]}, {}, Members(accounts), {});
      SteadyTrans(p, was, st, chain, Members(accounts), {});
    }

    /**
     Moves executable transactions to pending, then enforces the limits on pending
     and on queued transactions.  In between nothing pending is lost and of the
     given accounts the contiguous ones are settled; the limits then cut the pending
     lists to a level and trim the queue.
     */
    method PromoteExecutables(accounts: seq<Addr>, now: nat)
      returns (ghost mid: Pool, ghost level: nat, ghost last: Addr)
      requires Valid()
      modifies this`st, this`beats, priced
      ensures Valid() && Steady(old(st), st, chain, Members(accounts), {}) && st.all <= old(st).all
      ensures SettlesAll(old(st), st, chain, Members(accounts))
      ensures AllPending(old(st), mid) && Limited(mid, st, level, last)
      ensures Total(st.pending) <= limits.globalSlots ||
              forall a :: a in st.pending && a !in locals ==> |st.pending[a]| <= limits.accountSlots
      ensures Total(st.queue) <= limits.globalQueue || forall a :: a !in locals ==> Of(st.queue, a) == map[]
    {
      PromoteAccounts(accounts, now);
      mid := st;
      level, last := EnforceLimits(Members(accounts), old(st));
      forall a | a in Members(accounts) && Contiguous(old(st), chain, a) ensures Settled(st, chain, a) {
        assert Settled(mid, chain, a);
      }
    }

    /** The pending lists are cut to a level and the queue is trimmed to its limit. */
    ghost predicate Limited(p: Pool, q: Pool, level: nat, last: Addr)
      reads this
    {
      && Truncated(p.pending, q.pending, locals, limits.globalSlots, limits.accountSlots, level)
      && exists was :: QueueTrimmed(p.queue, q.queue, locals, was, limits.globalQueue, last)
    }

    method EnforceLimits(ghost promoted: set<Addr>, ghost p: Pool) returns (ghost level: nat, ghost last: Addr)
      requires Valid() && Steady(p, st, chain, promoted, {})
      modifies this`st, this`beats, priced
      ensures Valid() && Steady(p, st, chain, promoted, {}) && Steady(old(st), st, chain, {}, {}) &&
                st.all <= old(st).all
      ensures Limited(old(st), st, level, last)
      ensures Total(st.pending) <= limits.globalSlots ||
              forall a :: a in st.pending && a !in locals ==> |st.pending[a]| <= limits.accountSlots
      ensures Total(st.queue) <= limits.globalQueue || forall a :: a !in locals ==> Of(st.queue, a) == map[]
    {
      ghost var p1 := st;
      level := TruncatePending();
      forall a | a in st.pending && a !in locals
        ensures Total(st.pending) <= limits.globalSlots || |st.pending[a]| <= limits.accountSlots
      {
        TruncationIsFair(p1.pending, st.pending, locals, limits.globalSlots, limits.accountSlots, level, a, a);
      }
      ghost var p2 := st;
      last := TruncateQueue();
      SteadyTrans(p1, p2, st, chain, {}, {});
      SteadyWiden(p1, p2, chain, {}, {}, promoted, {});
      SteadyWiden(p2, st, chain, {}, {}, promoted, {});
      SteadyTrans(p, p1, p2, chain, promoted, {});
      SteadyTrans(p, p2, st, chain, promoted, {});
    }

    // -------------------------------------------------------------------------
    // A new chain head
    // -------------------------------------------------------------------------

    /** Sets every virtual nonce behind the highest pending one. */
    method SetNonces()
      requires Valid() && forall a :: a in st.pending ==> st.pending[a] != map[]
      modifies this`st
      ensures Valid() && st == old(st).(managed := st.managed)
      ensures forall a :: a !in st.pending ==> Virtual(st.managed, chain, a) == Virtual(old(st).managed, chain, a)
      ensures forall a {:trigger Contiguous(st, chain, a)} :: a in st.pending && FromBase(old(st), chain, a) ==>
                Contiguous(st, chain, a)
    {
      ghost var p := st;
      var managed := NextNonces(st.pending, st.managed);
      st := st.(managed := managed);
      forall a ensures AccountOk(st, a) {
        assert AccountOk(p, a);
      }
      forall a | a in st.pending && FromBase(p, chain, a) ensures Contiguous(st, chain, a) {
        assert NonceDone(p.pending, p.managed, managed, {}, a);
        NonceBehind(p, st, chain, a);
      }
      forall a | a !in st.pending ensures Virtual(st.managed, chain, a) == Virtual(p.managed, chain, a) {
        assert NonceDone(p.pending, p.managed, managed, {}, a);
      }
    }

    // -------------------------------------------------------------------------
    // Adding transactions
    // -------------------------------------------------------------------------

    /** Why a transaction is not acceptable to this pool, if it is not. */
    function Invalid(tx: Tx, local: bool): Option<Reason>
      reads this
    {
      if tx.size > MAX_TX_SIZE then Some(OversizedData)
      else if tx.value < 0 then Some(NegativeValue)
      else if tx.gas > chain.maxGas then Some(GasLimit)
      else if !tx.signed then Some(InvalidSender)
      else if !local && tx.sender !in locals && tx.price < gasPrice then Some(Underpriced)
      else if tx.nonce < chain.nonce(tx.sender) then Some(NonceTooLow)
      else if tx.cost > chain.balance(tx.sender) then Some(InsufficientFunds)
      else None
    }

    function Limit(): nat {
      limits.globalSlots + limits.globalQueue
    }

    predicate Full()
      reads this
    {
      |st.all| >= Limit()
    }

    /** A transaction a full pool has no room for: remote, and no better priced than any known one. */
    ghost predicate Outpriced(tx: Tx)
      reads this
    {
      Full() && st.all != {} && tx.sender !in locals && forall t :: t in st.all ==> tx.price <= t.price
    }

    /** How many of the cheapest entries making room pops. */
    function Excess(): int
      reads this
    {
      |st.all| - (Limit() - 1)
    }

    /**
     Makes room in a full pool, or refuses the transaction.  Only remote
     transactions are dropped, none of them dearer than a remote one that stays.
     In every state a run can reach, one transaction is dropped, or none if none is
     remote, so one more fits afterwards or only local ones are left; and it fits
     exactly if the pool was not beyond its limit and had a remote one.
     */
    method MakeRoom(tx: Tx) returns (ok: bool)
      requires Valid() && Full()
      modifies this`st, this`beats, priced
      ensures Valid() && Steady(old(st), st, chain, {}, {}) && st.all <= old(st).all
      ensures ok <==> !old(Outpriced(tx))
      ensures !ok ==> st == old(st)
      ensures DropsCheapest(old(st).all, st.all, locals)
      ensures ok ==> |st.all| < |old(st).all| || OnlyLocals(st.all, locals)
      ensures ok && old(Bounded()) ==> OneLess(old(st).all) && (!Full() || OnlyLocals(st.all, locals))
      ensures ok && old(Bounded()) ==>
                (!Full() <==> |old(st).all| == Limit() && !OnlyLocals(old(st).all, locals))
    {
      SteadyRefl(st, chain);
      var under := priced.Underpriced(tx, st.all, locals);
      CountedKept(old(priced.items), priced.items, [], st.all);
      assert st.all - {} == st.all;
      if under {
        return false;
      }
      ghost var drop := Shrink();
      ok := true;
    }

    /** One transaction has gone, or none if none was remote. */
    ghost predicate OneLess(was: set<Tx>)
      reads this
    {
      |was| - |st.all| == if OnlyLocals(was, locals) then 0 else 1
    }

    /**
     Drops the cheapest remote transactions, counted by heap entries.  The pool
     has room afterwards exactly if there were enough and no entry repeats.
     */
    method Shrink() returns (ghost dropped: seq<Tx>)
      requires Valid() && Full()
      modifies this`st, this`beats, priced
      ensures Valid() && Steady(old(st), st, chain, {}, {}) && st.all <= old(st).all
      ensures DropsCheapest(old(st).all, st.all, locals)
      ensures |st.all| < |old(st).all| || OnlyLocals(st.all, locals)
      ensures !Full() <==> |dropped| == old(Excess()) && !Repeats(dropped)
      ensures forall t :: t in old(st).all - st.all <==> t in dropped
      ensures |dropped| == old(Excess()) || OnlyLocals(st.all, locals)
      ensures old(Bounded()) ==> OneLess(old(st).all) && (!Full() || OnlyLocals(st.all, locals))
    {
      var drop := PopExcess();
      dropped := drop;
      ghost var gone := set t | t in drop;
      DropSize(drop, gone);
      if Bounded() {
        OneGoes(st.all, gone, drop, locals, Limit());
      }
      RemoveAll(drop);
      assert st.all == old(st).all - gone && gone <= old(st).all;
    }

    /** Takes the cheapest remote entries out of the price heap. */
    method PopExcess() returns (drop: seq<Tx>)
      requires Valid() && Full()
      modifies priced
      ensures PoolOk(st) && Covered(set t | t in drop) && |drop| <= Excess()
      ensures forall t :: t in drop ==> t in st.all && t.sender !in locals
      ensures forall d, t :: d in drop && t in st.all && t !in drop && t.sender !in locals ==> d.price <= t.price
      ensures |drop| < Excess() ==> forall t :: t in st.all && t.sender !in locals ==> t in drop
    {
      ghost var before := priced.items;
      assert st.all - {} == st.all;
      drop := priced.Discard(Excess(), st.all, locals);
      DiscardSettled(before, priced.items, drop, st.all, locals, Excess());
    }

    /**
     Validates a transaction, makes room for it if the pool is full, and puts it
     in place of a pending one, or in the queue.  On a full pool even a transaction
     handed in as local is refused if its account is not known as local yet and it
     is no better priced than any known one.
     */
    method Add(tx: Tx, local: bool) returns (r: AddResult, ghost mid: Pool)
      requires Valid()
      modifies this`st, this`beats, this`locals, priced
      ensures Valid() && Steady(old(st), st, chain, {}, if r.Pooled? && !r.replaced then {tx.sender} else {})
      ensures st.all <= old(st).all + {tx}
      ensures r == Refused(Known) <==> tx in old(st).all
      ensures TurnedAway(r) ==> st == old(st)
      ensures r == Refused(Underpriced) <==>
                tx !in old(st).all && (old(Invalid(tx, local)) == Some(Underpriced) ||
                    (old(Invalid(tx, local)) == None && old(Outpriced(tx))))
      ensures tx !in old(st).all && old(Invalid(tx, local)).Some? ==> r == Refused(old(Invalid(tx, local)).value)
      ensures r.Pooled? ==> tx in st.all && (Pends(st, tx) || Queues(st, tx))
      ensures old(Bounded()) ==> Bounded()
      ensures if old(Full()) then DropsCheapest(old(st).all, mid.all, old(locals)) else mid == old(st)
      ensures old(Bounded()) ==> |old(st).all| - |mid.all| <= 1
      ensures tx !in old(st).all && old(Invalid(tx, local)) == None && !old(Outpriced(tx)) ==>
                && st == Placed(mid, tx, limits.priceBump)
                && (r.Pooled? <==> Accepts(Rivals(mid, tx), tx, limits.priceBump))
      ensures locals == if local && r.Pooled? && Queues(st, tx) then old(locals) + {tx.sender} else old(locals)
    {
      SteadyRefl(st, chain);
      mid := st;
      if tx in st.all {
        return Refused(Known), mid;
      }
      var invalid := Invalid(tx, local);
      if invalid.Some? {
        return Refused(invalid.value), mid;
      }
      if Full() {
        var ok := MakeRoom(tx);
        mid := st;
        if !ok {
          return Refused(Underpriced), mid;
        }
      }
      r := Place(tx, local, old(st));
      if old(Bounded()) {
        WithinAdded(mid.all, old(locals), st.all, locals, tx, Limit());
      }
    }

    /** Puts a validated transaction into the pending list if it replaces one there, else into the queue. */
    method Place(tx: Tx, local: bool, ghost p: Pool) returns (r: AddResult)
      requires Valid() && tx !in st.all && Steady(p, st, chain, {}, {})
      modifies this`st, this`locals, priced
      ensures Valid() && Steady(p, st, chain, {}, if r.Pooled? && !r.replaced then {tx.sender} else {})
      ensures st.all <= old(st).all + {tx}
      ensures r.Refused? ==> st == old(st) && r.reason == ReplaceUnderpriced
      ensures st == Placed(old(st), tx, limits.priceBump)
      ensures r.Pooled? <==> Accepts(Rivals(old(st), tx), tx, limits.priceBump)
      ensures r.Pooled? ==> r.replaced == (tx.nonce in Rivals(old(st), tx))
      ensures r.Pooled? ==> tx in st.all && (Pends(st, tx) || Queues(st, tx))
      ensures locals == if local && r.Pooled? && Queues(st, tx) then old(locals) + {tx.sender} else old(locals)
    {
      ghost var was := st;
      var list := Of(st.pending, tx.sender);
      if tx.nonce in list {
        if !Accepts(list, tx, limits.priceBump) {
          return Refused(ReplaceUnderpriced);
        }
        ReplacedKeeps(st, tx, chain);
        st := st.(pending := st.pending[tx.sender := list[tx.nonce := tx]]);
        Forget(list[tx.nonce], {});
        Know(tx, {});
        assert AccountOk(st, tx.sender);
        r := Pooled(true);
      } else {
        EnqueuedKeeps(st, tx, limits.priceBump, chain);
        var inserted, replaced := EnqueueTx(tx, {});
        if !inserted {
          return Refused(ReplaceUnderpriced);
        }
        if local {
          locals := locals + {tx.sender};
        }
        r := Pooled(replaced);
      }
      ghost var fed := if r.replaced then {} else {tx.sender};
      SteadyWiden(p, was, chain, {}, {}, {}, fed);
      SteadyTrans(p, was, st, chain, {}, fed);
    }

    /** Adds one transaction and promotes its account unless it replaced another one. */
    method AddTx(tx: Tx, local: bool, now: nat) returns (r: AddResult)
      requires Valid()
      modifies this`st, this`beats, this`locals, priced
      ensures Valid() && Steady(old(st), st, chain, {tx.sender}, {}) && st.all <= old(st).all + {tx}
      ensures r == Refused(Known) <==> tx in old(st).all
      ensures TurnedAway(r) ==> st == old(st)
      ensures r == Refused(Underpriced) <==>
                tx !in old(st).all && (old(Invalid(tx, local)) == Some(Underpriced) ||
                    (old(Invalid(tx, local)) == None && old(Outpriced(tx))))
      ensures tx !in old(st).all && old(Invalid(tx, local)) == None && !old(Full()) ==>
                (r.Pooled? <==> Accepts(Rivals(old(st), tx), tx, limits.priceBump))
      ensures r.Pooled? && r.replaced ==> tx in st.all
      ensures old(Bounded()) ==> Bounded()
    {
      ghost var room;
      r, room := Add(tx, local);
      if r.Pooled? && !r.replaced {
        PromoteSender(tx.sender, now, old(st));
      } else {
        SteadyWiden(old(st), st, chain, {}, {}, {tx.sender}, {});
      }
    }

    method PromoteSender(a: Addr, now: nat, ghost p: Pool)
      requires Valid() && Steady(p, st, chain, {}, {a})
      modifies this`st, this`beats, priced
      ensures Valid() && Steady(p, st, chain, {a}, {}) && st.all <= old(st).all && (old(Bounded()) ==> Bounded())
    {
      ghost var was := st;
      var mid, level, last := PromoteExecutables([a], now);
      WithinKept(was.all, locals, st.all, locals, Limit());
      assert Members([a]) == {a} by { assert [a][0] == a; }
      SteadyWiden(p, was, chain, {}, {a}, {a}, {a});
      SteadySettles(p, was, st, chain, {a}, {a});
    }

    /** Adds a batch and promotes the accounts that gained a transaction. */
    method AddTxsLocked(txs: seq<Tx>, local: bool, now: nat) returns (results: seq<AddResult>)
      requires Valid()
      modifies this`st, this`beats, this`locals, priced
      ensures Valid() && Steady(old(st), st, chain, Senders(txs), {}) && |results| == |txs|
      ensures txs == [] ==> st == old(st) && locals == old(locals)
      ensures forall t :: t in st.all ==> t in old(st).all || t in txs
      ensures AllTurnedAway(results) ==> st == old(st)
      ensures old(Bounded()) ==> Bounded()
    {
      var dirty;
      results, dirty := AddAll(txs, local);
      SteadyWiden(old(st), st, chain, {}, dirty, Senders(txs), dirty);
      if dirty != {} {
        PromoteDirty(dirty, now, Senders(txs), old(st));
      }
    }

    /** The loop over a batch: `dirty` are the accounts that gained a transaction. */
    method AddAll(txs: seq<Tx>, local: bool) returns (results: seq<AddResult>, dirty: set<Addr>)
      requires Valid()
      modifies this`st, this`beats, this`locals, priced
      ensures Batch(old(st), txs, results, dirty) && |results| == |txs| && (old(Bounded()) ==> Bounded())
      ensures txs == [] ==> st == old(st) && locals == old(locals) && dirty == {}
    {
      results, dirty := [], {};
      SteadyRefl(st, chain);
      while |results| < |txs|
        invariant |results| <= |txs| && Batch(old(st), txs, results, dirty) && (old(Bounded()) ==> Bounded())
        invariant results == [] ==> st == old(st) && locals == old(locals) && dirty == {}
      {
        results, dirty := AddNext(txs, local, results, dirty, old(st));
      }
    }

    /** How a batch stands. */
    ghost predicate Batch(p: Pool, txs: seq<Tx>, results: seq<AddResult>, dirty: set<Addr>)
      reads this, priced
    {
      && Valid() && Steady(p, st, chain, {}, dirty) && dirty <= Senders(txs)
      && (forall t :: t in st.all ==> t in p.all || t in txs)
      && (AllTurnedAway(results) ==> st == p && dirty == {})
    }

    method AddNext(txs: seq<Tx>, local: bool, results: seq<AddResult>, dirty: set<Addr>, ghost p: Pool)
      returns (results': seq<AddResult>, dirty': set<Addr>)
      requires |results| < |txs| && Batch(p, txs, results, dirty)
      modifies this`st, this`beats, this`locals, priced
      ensures Batch(p, txs, results', dirty') && |results'| == |results| + 1 && (old(Bounded()) ==> Bounded())
    {
      ghost var was := st;
      var tx := txs[|results|];
      var r, room := Add(tx, local);
      dirty' := if r.Pooled? && !r.replaced then dirty + {tx.sender} else dirty;
      SteadyWiden(p, was, chain, {}, dirty, {}, dirty');
      SteadyWiden(was, st, chain, {}, if r.Pooled? && !r.replaced then {tx.sender} else {}, {}, dirty');
      SteadyTrans(p, was, st, chain, {}, dirty');
      results' := results + [r];
      assert results'[|results|] == r && forall i :: 0 <= i < |results| ==> results'[i] == results[i];
    }

    method PromoteDirty(dirty: set<Addr>, now: nat, ghost senders: set<Addr>, ghost p: Pool)
      requires Valid() && dirty <= senders && Steady(p, st, chain, senders, dirty)
      modifies this`st, this`beats, priced
      ensures Valid() && Steady(p, st, chain, senders, {}) && st.all <= old(st).all && (old(Bounded()) ==> Bounded())
    {
      ghost var was := st;
      var accounts := Elements(dirty);
      var mid, level, last := PromoteExecutables(accounts, now);
      WithinKept(was.all, locals, st.all, locals, Limit());
      MembersOf(accounts, dirty);
      SteadyWiden(was, st, chain, dirty, {}, senders, {});
      SteadySettles(p, was, st, chain, senders, dirty);
    }

    // -------------------------------------------------------------------------
    // Other operations
    // -------------------------------------------------------------------------

    /** Raises or lowers the price threshold; no remote transaction below it stays. */
    method SetGasPrice(price: nat)
      requires Valid()
      modifies this`st, this`beats, this`gasPrice, priced
      ensures Valid() && Steady(old(st), st, chain, {}, {}) && gasPrice == price
      ensures forall t :: t in st.all <==> t in old(st).all && (t.sender in locals || price <= t.price)
      ensures old(Bounded()) ==> Bounded()
    {
      gasPrice := price;
      var drop := PopBelow(price);
      RemoveAll(drop);
      WithinKept(old(st).all, locals, st.all, locals, Limit());
    }

    /** Takes the remote entries below a price out of the price heap. */
    method PopBelow(price: nat) returns (drop: seq<Tx>)
      requires Valid()
      modifies priced
      ensures PoolOk(st) && Covered(set t | t in drop)
      ensures forall t :: t in drop <==> t in st.all && t.sender !in locals && t.price < price
    {
      ghost var before := priced.items;
      assert st.all - {} == st.all;
      drop := priced.Cap(price, st.all, locals);
      CountedKept(before, priced.items, drop, st.all);
      forall t | t in st.all - (set t | t in drop) ensures t in multiset(priced.items) {
        assert t in st.all;
        assert t !in multiset(drop);
      }
    }

    predicate Expired(a: Addr, now: nat, lifetime: nat)
      reads this
    {
      a !in locals && (a !in beats || now - beats[a] > lifetime)
    }

    /** Drops the queues of remote accounts that have been inactive for too long. */
    method Evict(now: nat, lifetime: nat)
      requires Valid()
      modifies this`st, this`beats, priced
      ensures Valid() && Trims(old(st)) && beats == old(beats) && (old(Bounded()) ==> Bounded())
      ensures forall a :: Of(st.queue, a) == if old(Expired(a, now, lifetime)) then map[] else Of(old(st).queue, a)
    {
      SteadyRefl(st, chain);
      var todo := st.queue.Keys;
      while todo != {}
        invariant Valid() && Trims(old(st)) && beats == old(beats)
        invariant forall a {:trigger Of(st.queue, a)} ::
          Of(st.queue, a) == if a !in todo && old(Expired(a, now, lifetime)) then map[] else Of(old(st).queue, a)
        decreases |todo|
      {
        var a :| a in todo;
        ghost var p := st;
        if Expired(a, now, lifetime) {
          DropQueue(a);
          OnlyTrimmedTrans(old(st), p, st);
          SteadyTrans(old(st), p, st, chain, {}, {});
        }
        todo := todo - {a};
      }
      WithinKept(old(st).all, locals, st.all, locals, Limit());
    }

    /**
     Moves to a new chain state, first putting back transactions of abandoned
     blocks, up to the virtual nonces.  A gapless account that sent none of them
     becomes contiguous, unless stale transactions of it were removed meanwhile.
     */
    method Rebase(head: Chain, reinject: seq<Tx>, now: nat)
      requires Valid()
      modifies this`st, this`beats, this`locals, this`chain, priced
      ensures Valid() && chain == head && (old(Bounded()) ==> Bounded())
      ensures forall a {:trigger FromBase(st, chain, a)} ::
                NoGap(old(st), a) && a !in Senders(reinject) ==> FromBase(st, chain, a)
      ensures forall a {:trigger Contiguous(st, chain, a)} ::
                NoGap(old(st), a) && a !in Senders(reinject) && (a in st.pending || NoneStale(old(st), head, a)) ==>
                  Contiguous(st, chain, a)
      ensures reinject == [] ==> forall a {:trigger Contiguous(st, chain, a)} :: NoGap(old(st), a) ==>
                Contiguous(st, chain, a)
    {
      chain := head;
      st := st.(managed := map[]);
      ghost var p0 := st;
      forall a ensures AccountOk(st, a) { assert AccountOk(old(st), a); }
      var results := AddTxsLocked(reinject, false, now);
      ghost var p1 := st;
      DemoteUnexecutables();
      ghost var p2 := st;
      SetNonces();
      WithinKept(p1.all, locals, st.all, locals, Limit());
      forall a | NoGap(old(st), a) && a !in Senders(reinject)
        ensures FromBase(st, chain, a)
        ensures a in st.pending || reinject == [] || NoneStale(old(st), head, a) ==> Contiguous(st, chain, a)
      {
        assert NoGap(p1, a) ==> FromBase(p2, chain, a);
        assert a in st.pending && FromBase(p2, chain, a) ==> Contiguous(st, chain, a);
        RebaseKeeps(old(st), p0, p1, p2, st, head, reinject, a);
      }
    }

    /**
     Moves to a new chain head, unless the old and the new one have no common
     ancestor or the new state is missing: then nothing changes.  Gapless accounts
     that sent none of the reinjected transactions and have nothing stale pending
     end up settled; without reinjection all gapless ones do.
     */
    method Reset(head: Chain, reinjected: Option<seq<Tx>>, now: nat)
      requires Valid()
      modifies this`st, this`beats, this`locals, this`chain, priced
      ensures Valid() && (reinjected.None? ==> st == old(st) && chain == old(chain)) &&
                (reinjected.Some? ==> chain == head) && (old(Bounded()) ==> Bounded())
      ensures reinjected.Some? ==> forall a {:trigger Settled(st, chain, a)} ::
                NoGap(old(st), a) && a !in Senders(reinjected.value) &&
                    (reinjected.value == [] || NoneStale(old(st), head, a)) ==>
                  Settled(st, chain, a)
    {
      if reinjected.None? {
        return;
      }
      var reinject := reinjected.value;
      Rebase(head, reinject, now);
      ghost var p := st;
      var accounts := Elements(st.queue.Keys);
      MembersOf(accounts, st.queue.Keys);
      var mid, level, last := PromoteExecutables(accounts, now);
      WithinKept(p.all, locals, st.all, locals, Limit());
      forall a | NoGap(old(st), a) && a !in Senders(reinject) && (reinject == [] || NoneStale(old(st), head, a))
        ensures Settled(st, chain, a)
      {
        assert Contiguous(p, chain, a);
        assert a !in p.queue ==> Settled(p, chain, a);
      }
    }

    // -------------------------------------------------------------------------
    // Runs
    // -------------------------------------------------------------------------

    method Step(op: Op, now: nat)
      requires Valid()
      modifies this, priced
      ensures Valid() && (old(Bounded()) ==> Bounded())
      ensures !Reinjects(op) ==> Continues(old(st), old(chain), st, chain)
    {
      match op
      case AddOne(tx, local) =>
        var r := AddTx(tx, local, now);
      case AddMany(txs, local) =>
        var rs := AddTxsLocked(txs, local, now);
      case Reprice(price) =>
        SetGasPrice(price);
      case Expire(lifetime) =>
        Evict(now, lifetime);
      case NewHead(head, reinject) =>
        Reset(head, reinject, now);
        forall a | Contiguous(old(st), old(chain), a) && reinject == Some([])
          ensures Settled(st, chain, a) && Contiguous(st, chain, a)
        {
          assert Interval(Of(old(st).pending, a), old(chain).nonce(a), Virtual(old(st).managed, old(chain), a));
          assert NoGap(old(st), a) && a !in Senders(reinject.value);
        }
    }

    /**
     Every run of the pool keeps the invariants: lists filed correctly, known and
     disjoint, the price heap covering all that is known, and at most one remote
     transaction known while the pool is beyond its limit.  A run whose head
     changes reinject nothing keeps every account's pending nonces running from
     the chain nonce to the virtual one, and keeps every account settled: after
     each operation nothing executable is left in a queue.
     */
    method Drive(ops: seq<Op>, clock: nat -> nat)
      requires Valid()
      modifies this, priced
      ensures Valid() && (old(Bounded()) ==> Bounded())
      ensures (forall i :: 0 <= i < |ops| ==> !Reinjects(ops[i])) ==> Continues(old(st), old(chain), st, chain)
    {
      var i := 0;
      while i < |ops|
        invariant 0 <= i <= |ops| && Valid() && (old(Bounded()) ==> Bounded())
        invariant (forall j :: 0 <= j < i ==> !Reinjects(ops[j])) ==> Continues(old(st), old(chain), st, chain)
      {
        ghost var p, c := st, chain;
        Step(ops[i], clock(i));
        if forall j :: 0 <= j < i + 1 ==> !Reinjects(ops[j]) {
          ContinuesTrans(old(st), old(chain), p, c, st, chain);
        }
        i := i + 1;
      }
    }
  }

  /** Every run from a new pool. */
  method Live(limits: Limits, chain: Chain, price: nat, ops: seq<Op>, clock: nat -> nat) returns (pool: TxPool)
    ensures pool.Valid() && pool.Bounded() && pool.limits == limits
    ensures (forall i :: 0 <= i < |ops| ==> !Reinjects(ops[i])) ==>
              forall a {:trigger Settled(pool.st, pool.chain, a)} :: Settled(pool.st, pool.chain, a)
  {
    pool := new TxPool(limits, chain, price);
    ghost var p := pool.st;
    pool.Drive(ops, clock);
    if forall i :: 0 <= i < |ops| ==> !Reinjects(ops[i]) {
      forall a ensures Settled(pool.st, pool.chain, a) {
        EmptySettled(chain, a);
      }
    }
  }

  datatype Op =
    | AddOne(tx: Tx, local: bool)
    | AddMany(txs: seq<Tx>, local: bool)
    | Reprice(price: nat)
    | Expire(lifetime: nat)
    | NewHead(head: Chain, reinject: Option<seq<Tx>>)

  ghost predicate Reinjects(op: Op) {
    op.NewHead? && op.reinject.Some? && op.reinject.value != []
  }

  /**
   Accounts with contiguous pending nonces still have them, on the chain as it is
   then, and settled ones are settled.
   */
  ghost predicate Continues(p: Pool, c: Chain, q: Pool, d: Chain) {
    && (forall a {:trigger Contiguous(q, d, a)} :: Contiguous(p, c, a) ==> Contiguous(q, d, a))
    && (forall a {:trigger Settled(q, d, a)} :: Settled(p, c, a) ==> Settled(q, d, a))
  }

  /** A new pool is settled, so it is so all along a run without reinjection. */
  lemma EmptySettled(chain: Chain, a: Addr)
    ensures Settled(Pool(map[], map[], {}, map[]), chain, a)
  {
  }

  lemma ContinuesTrans(p: Pool, c: Chain, q: Pool, d: Chain, r: Pool, e: Chain)
    requires Continues(p, c, q, d) && Continues(q, d, r, e)
    ensures Continues(p, c, r, e)
  {
    forall a | Contiguous(p, c, a) ensures Contiguous(r, e, a) {
      assert Contiguous(q, d, a);
    }
    forall a | Settled(p, c, a) ensures Settled(r, e, a) {
      assert Settled(q, d, a);
    }
  }

  /** The queued transactions that fit have become pending in the nonces lo, ..., hi - 1. */
  ghost predicate RunPends(p: Pool, q: Pool, chain: Chain, a: Addr, lo: nat, hi: nat) {
    && ExecutableRange(Fit(p, chain, a), Start(p, chain, a), lo, hi)
    && Of(q.pending, a) == Of(p.pending, a) + Within(Fit(p, chain, a), lo, hi)
  }

  /** The promoted run lo, ..., hi - 1 ends below the payable transaction that old pending ones start with. */
  ghost predicate FallsShort(pending: Items, base: nat, lo: nat, hi: nat, plo: nat, phi: nat, cost: nat, gas: nat)
    requires Interval(pending, plo, phi)
  {
    base < plo < phi && lo < hi < plo && !Unpayable(pending[plo], cost, gas)
  }

  /**
   Reinjection can leave a gap.  Whatever has happened to the chain nonce and
   whatever is still payable, when the transactions taken in again have become
   pending in the nonces lo, ..., hi - 1 beside the old ones plo, ..., phi - 1,
   demotion leaves a gap exactly if they fall short of the old ones and the first of
   those is payable.
   */
  lemma ReinjectionJoins(p: Pool, q: Pool, chain: Chain, a: Addr, lo: nat, hi: nat, plo: nat, phi: nat)
    requires AccountOk(p, a) && RunPends(p, q, chain, a, lo, hi) && Start(p, chain, a) == chain.nonce(a)
    requires Interval(Of(p.pending, a), plo, phi)
    ensures NoGap(Demoted(q, chain, a), a) <==>
              !FallsShort(Of(p.pending, a), chain.nonce(a), lo, hi, plo, phi, chain.balance(a), chain.maxGas)
  {
    var base, cost, gas := chain.nonce(a), chain.balance(a), chain.maxGas;
    var pending, fit := Of(p.pending, a), Fit(p, chain, a);
    FitIs(p, chain, a);
    DemotedAccount(q, chain, a);
    if FallsShort(pending, base, lo, hi, plo, phi, cost, gas) {
      GapStays(pending, fit, base, lo, hi, plo, phi, cost, gas);
    } else if base in Sound(q, chain, a) {
      RunJoins(pending, fit, base, lo, hi, plo, phi, cost, gas);
    } else {
      assert Interval(map[], base, base);
    }
  }

  /** What is left of a promoted run and old pending transactions. */
  ghost function LeftOver(pending: Items, fit: Items, base: nat, lo: nat, hi: nat, cost: nat, gas: nat): Items {
    Payable(FromNonce(pending + Within(fit, lo, hi), base), true, cost, gas)
  }

  ghost predicate FitFor(fit: Items, pending: Items, base: nat, cost: nat, gas: nat) {
    fit.Keys !! pending.Keys && forall n :: n in fit ==> base <= n && !Unpayable(fit[n], cost, gas)
  }

  lemma GapStays(pending: Items, fit: Items, base: nat, lo: nat, hi: nat, plo: nat, phi: nat, cost: nat, gas: nat)
    requires FitFor(fit, pending, base, cost, gas) && ExecutableRange(fit, base, lo, hi)
    requires Interval(pending, plo, phi) && FallsShort(pending, base, lo, hi, plo, phi, cost, gas)
    ensures base in LeftOver(pending, fit, base, lo, hi, cost, gas)
    ensures !Gapless(LeftOver(pending, fit, base, lo, hi, cost, gas))
  {
    var kept, left := FromNonce(pending + Within(fit, lo, hi), base), LeftOver(pending, fit, base, lo, hi, cost, gas);
    forall m | m in kept && Unpayable(kept[m], cost, gas) ensures plo < m {
      assert m in pending;
    }
    assert hi - 1 in left && hi !in left && plo in left;
  }

  lemma RunJoins(pending: Items, fit: Items, base: nat, lo: nat, hi: nat, plo: nat, phi: nat, cost: nat, gas: nat)
    requires FitFor(fit, pending, base, cost, gas) && ExecutableRange(fit, base, lo, hi)
    requires Interval(pending, plo, phi) && !FallsShort(pending, base, lo, hi, plo, phi, cost, gas)
    requires base in LeftOver(pending, fit, base, lo, hi, cost, gas)
    ensures Gapless(LeftOver(pending, fit, base, lo, hi, cost, gas))
  {
    var kept, left := FromNonce(pending + Within(fit, lo, hi), base), LeftOver(pending, fit, base, lo, hi, cost, gas);
    if base < plo < phi && lo < hi < plo {
      assert plo in kept && Unpayable(kept[plo], cost, gas);
      forall n ensures n in left <==> lo <= n < hi {
        assert n in left ==> n < plo;
      }
      assert Interval(left, lo, hi);
    } else {
      var top := KeptInterval(pending, fit, base, lo, hi, plo, phi, cost, gas);
      PayableInterval(kept, base, top, cost, gas);
    }
  }

  lemma KeptInterval(pending: Items, fit: Items, base: nat, lo: nat, hi: nat, plo: nat, phi: nat, cost: nat, gas: nat)
    returns (top: nat)
    requires FitFor(fit, pending, base, cost, gas) && ExecutableRange(fit, base, lo, hi)
    requires Interval(pending, plo, phi) && !(base < plo < phi && lo < hi < plo)
    requires base in LeftOver(pending, fit, base, lo, hi, cost, gas)
    ensures Interval(FromNonce(pending + Within(fit, lo, hi), base), base, top)
  {
    assert plo < phi ==> plo in pending && plo !in fit;
    top := if lo == hi then phi else if base < plo < phi then phi else hi;
  }

  lemma OneFits(fit: Items, t: Tx)
    requires fit == map[0 := t]
    ensures ExecutableRange(fit, 0, 0, 1) && Within(fit, 0, 1) == fit && Outside(fit, 0, 1) == map[]
    ensures Capped(map[], map[], false, 64) && Lost(map[], map[]) == {}
  {
    assert StartsAt(fit, 0, 0);
    var none: Items := map[];
    assert Capped(none, none, false, 64);
  }

  /** Promotion of an account whose only queued transaction is executable. */
  lemma OnePromoted(p: Pool, q: Pool, chain: Chain, a: Addr, t: Tx)
    requires Of(p.queue, a) == Fit(p, chain, a) == map[0 := t] && Start(p, chain, a) == 0 && Touches(p, q, a)
    requires Of(q.pending, a) == Of(p.pending, a)[0 := t] && Of(q.queue, a) == map[]
    requires q.all == p.all && q.managed == p.managed[a := 1]
    ensures AccountPromoted(p, q, chain, a, false, 64, 0, 1)
  {
    var fit, none: Items := Fit(p, chain, a), map[];
    OneFits(fit, t);
    assert Of(p.pending, a) + fit == Of(q.pending, a);
    assert Lost(Of(p.queue, a), fit) == {};
    assert p.all - {} - {} == p.all;
  }

  /** Nonce 2 was pending when the chain nonce went back to 0, and only nonce 0 came back. */
  lemma ReinjectionLeavesGap() returns (p: Pool, q: Pool, chain: Chain, a: Addr)
    ensures PoolOk(p) && NoGap(p, a) && AccountPromoted(p, q, chain, a, false, 64, 0, 1)
    ensures !NoGap(Demoted(q, chain, a), a)
  {
    var t0, t2;
    p, chain, a, t0, t2 := GapStart();
    q := Pool(map[a := map[2 := t2][0 := t0]], map[], p.all, p.managed[a := 1]);
    OnePromoted(p, q, chain, a, t0);
    ReinjectionJoins(p, q, chain, a, 0, 1, 2, 3);
  }

  lemma GapStart() returns (p: Pool, chain: Chain, a: Addr, t0: Tx, t2: Tx)
    ensures PoolOk(p) && p.pending == map[a := map[2 := t2]] && Interval(p.pending[a], 2, 3)
    ensures p.queue == map[a := map[0 := t0]] && Fit(p, chain, a) == map[0 := t0] && p.managed == map[]
    ensures chain.nonce(a) == 0 && !Unpayable(t0, chain.balance(a), chain.maxGas) &&
              !Unpayable(t2, chain.balance(a), chain.maxGas)
  {
    a, chain := 7, Chain((x: Addr) => 0, (x: Addr) => 100, 100);
    t0, t2 := Tx(7, 0, 1, 1, 1, 0, 1, true, 0), Tx(7, 2, 1, 1, 1, 0, 1, true, 0);
    p := Pool(map[a := map[2 := t2]], map[a := map[0 := t0]], {t0, t2}, map[]);
    forall b ensures AccountOk(p, b) {
    }
  }

  /**
   Removing a transaction the chain has already included leaves the virtual nonce
   below the chain's, and nothing else does.
   */
  lemma StaleRemoval(p: Pool, chain: Chain, tx: Tx)
    requires PoolOk(p) && chain.nonce(tx.sender) <= Start(p, chain, tx.sender)
    ensures Start(Removed(p, chain, tx), chain, tx.sender) < chain.nonce(tx.sender) <==>
              tx in p.all && tx.nonce in Of(p.pending, tx.sender) && tx.nonce < chain.nonce(tx.sender)
  {
  }

  /** A case of it. */
  lemma StaleRemovalLowersNonce() returns (p: Pool, chain: Chain, tx: Tx)
    ensures PoolOk(p) && NoGap(p, tx.sender) && Start(p, chain, tx.sender) == chain.nonce(tx.sender)
    ensures Start(Removed(p, chain, tx), chain, tx.sender) < chain.nonce(tx.sender)
  {
    chain := Chain((x: Addr) => 6, (x: Addr) => 100, 100);
    tx := Tx(7, 5, 1, 1, 1, 0, 1, true, 0);
    p := Pool(map[7 := map[5 := tx]], map[], {tx}, map[]);
    assert Interval(Of(p.pending, 7), 5, 6);
    forall b ensures AccountOk(p, b) {
    }
  }
}
