/**
 What the operations of the transaction pool mean, stated on values: the pending
 and queued transactions of each account, the set of known transactions and the
 virtual nonces.  The lists are the plain maps of `TxList`.  The lemmas say what
 each operation keeps.
 */
module PoolState {
  import opened Options
  import opened TxList

  /** The chain state the pool checks against. */
  datatype Chain = Chain(nonce: Addr -> nat, balance: Addr -> nat, maxGas: nat)

  datatype Pool = Pool(pending: map<Addr, Items>, queue: map<Addr, Items>, all: set<Tx>, managed: map<Addr, nat>)

  function Of(m: map<Addr, Items>, a: Addr): Items {
    if a in m then m[a] else map[]
  }

  /** The nonce the next transaction of `a` should have; the chain's own until it is set. */
  function Virtual(managed: map<Addr, nat>, chain: Chain, a: Addr): nat {
    if a in managed then managed[a] else chain.nonce(a)
  }

  // ---------------------------------------------------------------------------
  // Invariants
  // ---------------------------------------------------------------------------

  ghost predicate Listed(items: Items, a: Addr, all: set<Tx>) {
    forall n :: n in items ==> items[n].nonce == n && items[n].sender == a && items[n] in all
  }

  /** The lists of one account are filed correctly, known to the pool, and share no nonce. */
  ghost predicate AccountOk(p: Pool, a: Addr) {
    && Listed(Of(p.pending, a), a, p.all)
    && Listed(Of(p.queue, a), a, p.all)
    && Of(p.pending, a).Keys !! Of(p.queue, a).Keys
  }

  ghost predicate PoolOk(p: Pool) {
    forall a {:trigger AccountOk(p, a)} :: AccountOk(p, a)
  }

  /** The nonces of `items` are exactly lo, ..., hi - 1. */
  ghost predicate Interval(items: Items, lo: nat, hi: nat) {
    lo <= hi && forall n :: n in items <==> lo <= n < hi
  }

  ghost predicate Gapless(items: Items) {
    exists lo, hi :: Interval(items, lo, hi)
  }

  /** The pending nonces of `a` run from the chain nonce up to the virtual nonce. */
  ghost predicate Contiguous(p: Pool, chain: Chain, a: Addr) {
    Interval(Of(p.pending, a), chain.nonce(a), Virtual(p.managed, chain, a))
  }

  ghost predicate NoGap(p: Pool, a: Addr) {
    Gapless(Of(p.pending, a))
  }

  /** Contiguous, with nothing executable left in the queue. */
  ghost predicate Settled(p: Pool, chain: Chain, a: Addr) {
    Contiguous(p, chain, a) && Virtual(p.managed, chain, a) !in Of(p.queue, a)
  }

  /** The virtual nonce is the chain's, and nothing pending is stale. */
  ghost predicate AtBase(p: Pool, chain: Chain, a: Addr) {
    Virtual(p.managed, chain, a) == chain.nonce(a) && forall n :: n in Of(p.pending, a) ==> chain.nonce(a) <= n
  }

  /**
   A step that keeps contiguity everywhere, gaplessness and the base of the
   accounts outside `promoted`, and the accounts outside `fed` settled.
   */
  ghost predicate Steady(p: Pool, q: Pool, chain: Chain, promoted: set<Addr>, fed: set<Addr>) {
    && (forall a {:trigger Contiguous(q, chain, a)} :: Contiguous(p, chain, a) ==> Contiguous(q, chain, a))
    && (forall a {:trigger NoGap(q, a)} :: a !in promoted && NoGap(p, a) ==> NoGap(q, a))
    && (forall a {:trigger AtBase(q, chain, a)} :: a !in promoted && AtBase(p, chain, a) ==> AtBase(q, chain, a))
    && (forall a {:trigger Settled(q, chain, a)} :: a !in fed && Settled(p, chain, a) ==> Settled(q, chain, a))
  }

  lemma SteadyTrans(p: Pool, q: Pool, r: Pool, chain: Chain, promoted: set<Addr>, fed: set<Addr>)
    requires Steady(p, q, chain, promoted, fed) && Steady(q, r, chain, promoted, fed)
    ensures Steady(p, r, chain, promoted, fed)
  {
    forall a | Contiguous(p, chain, a) ensures Contiguous(r, chain, a) {
      assert Contiguous(q, chain, a);
    }
    forall a | a !in promoted && NoGap(p, a) ensures NoGap(r, a) {
      assert NoGap(q, a);
    }
    forall a | a !in promoted && AtBase(p, chain, a) ensures AtBase(r, chain, a) {
      assert AtBase(q, chain, a);
    }
    forall a | a !in fed && Settled(p, chain, a) ensures Settled(r, chain, a) {
      assert Settled(q, chain, a);
    }
  }

  /** A step that settles all the accounts fed before. */
  lemma SteadySettles(p: Pool, q: Pool, r: Pool, chain: Chain, promoted: set<Addr>, fed: set<Addr>)
    requires Steady(p, q, chain, promoted, fed) && Steady(q, r, chain, promoted, {})
    requires forall a {:trigger Settled(r, chain, a)} :: a in fed && Contiguous(q, chain, a) ==> Settled(r, chain, a)
    ensures Steady(p, r, chain, promoted, {})
  {
    SteadyWiden(q, r, chain, promoted, {}, promoted, fed);
    SteadyTrans(p, q, r, chain, promoted, fed);
    forall a | Settled(p, chain, a) ensures Settled(r, chain, a) {
      assert Contiguous(q, chain, a);
    }
  }

  lemma SteadyRefl(p: Pool, chain: Chain)
    ensures Steady(p, p, chain, {}, {})
  {
  }

  lemma SteadyWiden(p: Pool, q: Pool, chain: Chain, promoted: set<Addr>, fed: set<Addr>, promoted': set<Addr>,
                    fed': set<Addr>)
    requires Steady(p, q, chain, promoted, fed) && promoted <= promoted' && fed <= fed'
    ensures Steady(p, q, chain, promoted', fed')
  {
  }

  // ---------------------------------------------------------------------------
  // Steps on one account
  // ---------------------------------------------------------------------------

  ghost predicate SameAccount(p: Pool, q: Pool, a: Addr) {
    && Of(p.pending, a) == Of(q.pending, a)
    && Of(p.queue, a) == Of(q.queue, a)
    && (a in p.managed <==> a in q.managed)
    && (a in p.managed ==> p.managed[a] == q.managed[a])
  }

  /** Only account `a` changes, and only its transactions may be forgotten. */
  ghost predicate Touches(p: Pool, q: Pool, a: Addr) {
    && (forall b {:trigger SameAccount(p, q, b)} :: b != a ==> SameAccount(p, q, b))
    && (forall t {:trigger t in q.all} :: t in p.all && t.sender != a ==> t in q.all)
  }

  lemma ElsewhereOk(p: Pool, q: Pool, a: Addr)
    requires PoolOk(p) && Touches(p, q, a) && AccountOk(q, a)
    ensures PoolOk(q)
  {
    forall b ensures AccountOk(q, b) {
      if b != a {
        assert SameAccount(p, q, b) && AccountOk(p, b);
      }
    }
  }

  /** A step on one account is steady if it is so for that account. */
  lemma ElsewhereSteady(p: Pool, q: Pool, a: Addr, chain: Chain, promoted: set<Addr>, fed: set<Addr>)
    requires Touches(p, q, a)
    requires Contiguous(p, chain, a) ==> Contiguous(q, chain, a)
    requires a !in promoted && NoGap(p, a) ==> NoGap(q, a)
    requires a !in promoted && AtBase(p, chain, a) ==> AtBase(q, chain, a)
    requires a !in fed && Settled(p, chain, a) ==> Settled(q, chain, a)
    ensures Steady(p, q, chain, promoted, fed)
  {
    forall b | b != a
      ensures Contiguous(p, chain, b) <==> Contiguous(q, chain, b)
      ensures NoGap(p, b) <==> NoGap(q, b)
      ensures AtBase(p, chain, b) <==> AtBase(q, chain, b)
      ensures Settled(p, chain, b) <==> Settled(q, chain, b)
    {
      assert SameAccount(p, q, b);
    }
  }

  // ---------------------------------------------------------------------------
  // Enqueueing
  // ---------------------------------------------------------------------------

  /** What inserting `tx` into the future queue leaves; a refusal changes nothing. */
  function Enqueued(p: Pool, tx: Tx, bump: nat): Pool {
    var q := Of(p.queue, tx.sender);
    if !Accepts(q, tx, bump) then p else
      p.(queue := p.queue[tx.sender := q[tx.nonce := tx]],
         all := (if tx.nonce in q then p.all - {q[tx.nonce]} else p.all) + {tx})
  }

  /** The account whose queue gains a nonce, if one does. */
  function Fed(p: Pool, tx: Tx): set<Addr> {
    if tx.nonce in Of(p.queue, tx.sender) then {} else {tx.sender}
  }

  /** Queueing a nonce that is not pending keeps the invariants and touches no pending list. */
  lemma EnqueuedKeeps(p: Pool, tx: Tx, bump: nat, chain: Chain)
    requires PoolOk(p) && tx.nonce !in Of(p.pending, tx.sender)
    ensures PoolOk(Enqueued(p, tx, bump)) && Touches(p, Enqueued(p, tx, bump), tx.sender)
    ensures Steady(p, Enqueued(p, tx, bump), chain, {}, Fed(p, tx))
    ensures Accepts(Of(p.queue, tx.sender), tx, bump) ==> Of(Enqueued(p, tx, bump).queue, tx.sender)[tx.nonce] == tx
  {
    var a, q := tx.sender, Enqueued(p, tx, bump);
    assert AccountOk(p, a);
    if Accepts(Of(p.queue, a), tx, bump) {
      assert Of(q.queue, a) == Of(p.queue, a)[tx.nonce := tx];
    }
    ElsewhereOk(p, q, a);
    ElsewhereSteady(p, q, a, chain, {}, Fed(p, tx));
  }

  // ---------------------------------------------------------------------------
  // Replacing a pending transaction
  // ---------------------------------------------------------------------------

  /** The list a validated transaction competes in: the pending one if its nonce is pending. */
  function Rivals(p: Pool, tx: Tx): Items {
    if tx.nonce in Of(p.pending, tx.sender) then Of(p.pending, tx.sender) else Of(p.queue, tx.sender)
  }

  /** What adding a validated transaction to a pool with room leaves. */
  function Placed(p: Pool, tx: Tx, bump: nat): Pool {
    if tx.nonce !in Of(p.pending, tx.sender) then Enqueued(p, tx, bump)
    else if Accepts(Of(p.pending, tx.sender), tx, bump) then Replaced(p, tx)
    else p
  }

  function Replaced(p: Pool, tx: Tx): Pool
    requires tx.nonce in Of(p.pending, tx.sender)
  {
    var l := Of(p.pending, tx.sender);
    p.(pending := p.pending[tx.sender := l[tx.nonce := tx]], all := p.all - {l[tx.nonce]} + {tx})
  }

  lemma ReplacedKeeps(p: Pool, tx: Tx, chain: Chain)
    requires PoolOk(p) && tx.nonce in Of(p.pending, tx.sender)
    ensures PoolOk(Replaced(p, tx)) && Steady(p, Replaced(p, tx), chain, {}, {})
  {
    var a, q := tx.sender, Replaced(p, tx);
    assert AccountOk(p, a);
    assert Of(q.pending, a).Keys == Of(p.pending, a).Keys;
    ElsewhereOk(p, q, a);
    SameNonces(Of(p.pending, a), Of(q.pending, a));
    ElsewhereSteady(p, q, a, chain, {}, {});
  }

  lemma SameNonces(l: Items, k: Items)
    requires l.Keys == k.Keys
    ensures forall lo, hi :: Interval(l, lo, hi) ==> Interval(k, lo, hi)
    ensures Gapless(l) ==> Gapless(k)
  {
    forall lo, hi | Interval(l, lo, hi) ensures Interval(k, lo, hi) {
      assert forall n :: n in l <==> n in k;
    }
    if Gapless(l) {
      var lo, hi :| Interval(l, lo, hi);
      assert Interval(k, lo, hi);
    }
  }

  // ---------------------------------------------------------------------------
  // Removing
  // ---------------------------------------------------------------------------

  function AboveNonce(items: Items, nonce: nat): Items {
    map n | n in items && nonce < n :: items[n]
  }

  function WithQueue(m: map<Addr, Items>, a: Addr, more: Items): map<Addr, Items> {
    if more == map[] then m else m[a := Of(m, a) + more]
  }

  function DropNonce(m: map<Addr, Items>, a: Addr, nonce: nat): map<Addr, Items> {
    if a !in m then m else if m[a] - {nonce} == map[] then m - {a} else m[a := m[a] - {nonce}]
  }

  lemma DropNonceElsewhere(m: map<Addr, Items>, a: Addr, nonce: nat, b: Addr)
    requires b != a
    ensures Of(DropNonce(m, a, nonce), b) == Of(m, b)
  {
  }

  /** Queueing known transactions one at a time adds up. */
  lemma RequeueStep(p: Pool, m: map<Addr, Items>, a: Addr, back: Items, tx: Tx, bump: nat)
    requires p.queue == WithQueue(m, a, back) && tx.sender == a && tx in p.all
    requires tx.nonce !in Of(m, a) && tx.nonce !in back
    ensures Enqueued(p, tx, bump) == p.(queue := WithQueue(m, a, back[tx.nonce := tx]))
  {
    assert Of(p.queue, a) == Of(m, a) + back;
    assert (Of(m, a) + back)[tx.nonce := tx] == Of(m, a) + back[tx.nonce := tx];
    assert p.all + {tx} == p.all;
  }

  function Except(items: Items, todo: set<nat>): Items {
    map n | n in items && n !in todo :: items[n]
  }

  lemma ExceptStep(items: Items, todo: set<nat>, n: nat)
    requires n in items && n in todo
    ensures Except(items, todo - {n}) == Except(items, todo)[n := items[n]]
  {
  }

  /**
   Removal of a known transaction.  A pending nonce takes the later ones with it
   back to the queue, unless nothing stays pending: then they are in neither list.
   */
  function Removed(p: Pool, chain: Chain, tx: Tx): Pool {
    var a, n, l, all := tx.sender, tx.nonce, Of(p.pending, tx.sender), p.all - {tx};
    if tx !in p.all then p else
    if n in l then
      var managed := if Virtual(p.managed, chain, a) > n then p.managed[a := n] else p.managed;
      if BelowNonce(l, n) == map[] then Pool(p.pending - {a}, p.queue, all, managed)
      else Pool(p.pending[a := BelowNonce(l, n)], WithQueue(p.queue, a, AboveNonce(l, n)), all, managed)
    else
      Pool(p.pending, DropNonce(p.queue, a, n), all, p.managed)
  }

  /** The account a removal touches, after it. */
  lemma RemovedAccount(p: Pool, chain: Chain, tx: Tx)
    requires AccountOk(p, tx.sender) && tx in p.all
    ensures var q := Removed(p, chain, tx); var l, f := Of(p.pending, tx.sender), Of(p.queue, tx.sender);
            && Of(q.pending, tx.sender) == (if tx.nonce in l then BelowNonce(l, tx.nonce) else l)
            && (Of(q.queue, tx.sender) == if tx.nonce !in l then f - {tx.nonce}
                                          else if BelowNonce(l, tx.nonce) == map[] then f
                                          else f + AboveNonce(l, tx.nonce))
  {
  }

  lemma RemovedAccountOk(p: Pool, chain: Chain, tx: Tx)
    requires AccountOk(p, tx.sender) && tx in p.all
    ensures AccountOk(Removed(p, chain, tx), tx.sender)
  {
    var a, n, q := tx.sender, tx.nonce, Removed(p, chain, tx);
    var l, f := Of(p.pending, a), Of(p.queue, a);
    RemovedAccount(p, chain, tx);
    assert n in l ==> n !in f;
  }

  lemma RemovedTouches(p: Pool, chain: Chain, tx: Tx)
    ensures Touches(p, Removed(p, chain, tx), tx.sender)
  {
    var a, q := tx.sender, Removed(p, chain, tx);
    forall b | b != a ensures SameAccount(p, q, b) {
      if tx.nonce in Of(p.pending, a) {
        assert Of(p.pending - {a}, b) == Of(p.pending, b);
        WithQueueOf(p.queue, a, AboveNonce(Of(p.pending, a), tx.nonce));
      } else {
        DropNonceElsewhere(p.queue, a, tx.nonce, b);
      }
    }
  }

  lemma RemovedKeeps(p: Pool, chain: Chain, tx: Tx)
    requires PoolOk(p)
    ensures PoolOk(Removed(p, chain, tx)) && Steady(p, Removed(p, chain, tx), chain, {}, {})
  {
    var a, n, q := tx.sender, tx.nonce, Removed(p, chain, tx);
    assert AccountOk(p, a);
    RemovedTouches(p, chain, tx);
    if tx in p.all {
      RemovedAccountOk(p, chain, tx);
      ElsewhereOk(p, q, a);
      RemovedAccount(p, chain, tx);
      RemovedSteady(p, chain, tx);
    }
    ElsewhereSteady(p, q, a, chain, {}, {});
  }

  lemma RemovedSteady(p: Pool, chain: Chain, tx: Tx)
    requires AccountOk(p, tx.sender) && tx in p.all
    ensures Contiguous(p, chain, tx.sender) ==> Contiguous(Removed(p, chain, tx), chain, tx.sender)
    ensures NoGap(p, tx.sender) ==> NoGap(Removed(p, chain, tx), tx.sender)
    ensures AtBase(p, chain, tx.sender) ==> AtBase(Removed(p, chain, tx), chain, tx.sender)
    ensures Settled(p, chain, tx.sender) ==> Settled(Removed(p, chain, tx), chain, tx.sender)
  {
    var l, n := Of(p.pending, tx.sender), tx.nonce;
    RemovedAccount(p, chain, tx);
    if Contiguous(p, chain, tx.sender) && n in l {
      CutInterval(l, n, chain.nonce(tx.sender), Virtual(p.managed, chain, tx.sender));
    }
    if NoGap(p, tx.sender) && n in l {
      var lo, hi :| Interval(l, lo, hi);
      CutInterval(l, n, lo, hi);
    }
  }

  /** Cutting an interval at one of its nonces leaves an interval. */
  lemma CutInterval(l: Items, n: nat, lo: nat, hi: nat)
    requires Interval(l, lo, hi) && lo <= n <= hi
    ensures Interval(BelowNonce(l, n), lo, n)
  {
  }

  /** A transaction of the queue leaves only the queue. */
  lemma RemovedQueued(p: Pool, chain: Chain, tx: Tx)
    requires PoolOk(p) && tx.nonce in Of(p.queue, tx.sender) && tx in p.all
    ensures Removed(p, chain, tx) == Pool(p.pending, DropNonce(p.queue, tx.sender, tx.nonce), p.all - {tx}, p.managed)
  {
    assert AccountOk(p, tx.sender);
  }

  // ---------------------------------------------------------------------------
  // Promotion
  // ---------------------------------------------------------------------------

  /** What inserting `tx` into the pending list leaves. */
  function Promoted(p: Pool, tx: Tx, bump: nat): Pool {
    var a, l := tx.sender, Of(p.pending, tx.sender);
    if !Accepts(l, tx, bump) then p.(all := p.all - {tx}) else
      Pool(p.pending[a := l[tx.nonce := tx]], p.queue,
           (if tx.nonce in l then p.all - {l[tx.nonce]} else p.all) + {tx},
           p.managed[a := tx.nonce + 1])
  }

  predicate StartsAt(items: Items, start: nat, n: nat) {
    n <= start && n in items && forall m | m in items :: n <= m
  }

  /**
   The executable nonces are lo, ..., hi - 1: the consecutive ones from the least
   on, if that is not above `start`.
   */
  ghost predicate ExecutableRange(items: Items, start: nat, lo: nat, hi: nat) {
    if forall m :: m in items ==> start < m then lo == hi
    else StartsAt(items, start, lo) && lo < hi && hi !in items && forall m :: lo <= m < hi ==> m in items
  }

  function Within(items: Items, lo: nat, hi: nat): Items {
    map n | n in items && lo <= n < hi :: items[n]
  }

  function Outside(items: Items, lo: nat, hi: nat): Items {
    map n | n in items && !(lo <= n < hi) :: items[n]
  }

  /** The virtual nonces once lo, ..., hi - 1 have been promoted. */
  function Raised(managed: map<Addr, nat>, a: Addr, lo: nat, hi: nat): map<Addr, nat> {
    if lo == hi then managed else managed[a := hi]
  }

  /** The pool once the transactions lo, ..., hi - 1 of `fit` have become pending. */
  function RunPromoted(p: Pool, a: Addr, fit: Items, lo: nat, hi: nat): Pool {
    p.(pending := WithQueue(p.pending, a, Within(fit, lo, hi)), managed := Raised(p.managed, a, lo, hi))
  }

  /** A remote account's queue is cut to the lowest nonces. */
  ghost predicate Capped(items: Items, r: Items, local: bool, cap: nat) {
    if local then r == items else IsLowest(items, r, cap)
  }

  /** The queued transactions of `a` that are neither stale nor too costly. */
  function Fit(p: Pool, chain: Chain, a: Addr): Items {
    Payable(FromNonce(Of(p.queue, a), chain.nonce(a)), false, chain.balance(a), chain.maxGas)
  }

  function Start(p: Pool, chain: Chain, a: Addr): nat {
    Virtual(p.managed, chain, a)
  }

  /**
   Promotion of one account whose queue still fits in `fit` and whose executable
   nonces are lo, ..., hi - 1: the rest of the queue goes, the executable ones
   become pending, and of a remote account's others only the lowest stay.
   */
  ghost predicate PromotedFrom(p: Pool, q: Pool, a: Addr, start: nat, fit: Items, local: bool, cap: nat, lo: nat,
                               hi: nat) {
    && Touches(p, q, a)
    && ExecutableRange(fit, start, lo, hi)
    && Of(q.pending, a) == Of(p.pending, a) + Within(fit, lo, hi)
    && Capped(Outside(fit, lo, hi), Of(q.queue, a), local, cap)
    && q.all == p.all - Lost(Of(p.queue, a), fit) - Lost(Outside(fit, lo, hi), Of(q.queue, a))
    && q.managed == Raised(p.managed, a, lo, hi)
  }

  function Filed(m: map<Addr, Items>, a: Addr, f: Items): map<Addr, Items> {
    if f == map[] then m - {a} else m[a := f]
  }

  lemma PromotedFromIs(p: Pool, q: Pool, a: Addr, start: nat, fit: Items, local: bool, cap: nat, lo: nat, hi: nat)
    requires ExecutableRange(fit, start, lo, hi)
    requires q.pending == WithQueue(p.pending, a, Within(fit, lo, hi))
    requires q.queue == Filed(p.queue[a := Outside(fit, lo, hi)], a, Of(q.queue, a))
    requires Capped(Outside(fit, lo, hi), Of(q.queue, a), local, cap)
    requires q.all == p.all - Lost(Of(p.queue, a), fit) - Lost(Outside(fit, lo, hi), Of(q.queue, a))
    requires q.managed == Raised(p.managed, a, lo, hi)
    requires Listed(Of(p.queue, a), a, p.all) && FromQueue(fit, Of(p.queue, a), 0)
    ensures PromotedFrom(p, q, a, start, fit, local, cap, lo, hi)
  {
    WithQueueOf(p.pending, a, Within(fit, lo, hi));
    FiledElsewhere(p.queue, a, Outside(fit, lo, hi), Of(q.queue, a));
    forall b | b != a ensures SameAccount(p, q, b) {
    }
    forall t | t in p.all && t.sender != a ensures t in q.all {
      assert t !in Lost(Of(p.queue, a), fit) && t !in Lost(Outside(fit, lo, hi), Of(q.queue, a));
    }
  }

  lemma UpdateTwice<V>(m: map<Addr, V>, a: Addr, x: V, y: V)
    ensures m[a := x][a := y] == m[a := y]
  {
  }

  lemma FiledElsewhere(m: map<Addr, Items>, a: Addr, f: Items, g: Items)
    ensures forall b :: b != a ==> Of(Filed(m[a := f], a, g), b) == Of(m, b)
  {
  }

  ghost predicate AccountPromoted(p: Pool, q: Pool, chain: Chain, a: Addr, local: bool, cap: nat, lo: nat, hi: nat) {
    PromotedFrom(p, q, a, Start(p, chain, a), Fit(p, chain, a), local, cap, lo, hi)
  }

  ghost predicate FromQueue(fit: Items, list: Items, base: nat) {
    forall n :: n in fit ==> n in list && fit[n] == list[n] && base <= n
  }

  lemma FitIs(p: Pool, chain: Chain, a: Addr)
    ensures FromQueue(Fit(p, chain, a), Of(p.queue, a), chain.nonce(a))
  {
  }

  lemma LostTwice(list: Items, kept: Items, fit: Items)
    requires kept.Keys <= list.Keys && fit.Keys <= kept.Keys && forall n :: n in kept ==> kept[n] == list[n]
    ensures Lost(list, fit) == Lost(list, kept) + Lost(kept, fit)
  {
  }

  /** Inserting a known transaction under a free nonce only extends the pending list. */
  lemma PromoteStep(p: Pool, m: map<Addr, Items>, a: Addr, done: Items, tx: Tx, bump: nat)
    requires p.pending == WithQueue(m, a, done) && tx.sender == a && tx in p.all
    requires tx.nonce !in Of(m, a) && tx.nonce !in done
    ensures Promoted(p, tx, bump)
         == p.(pending := WithQueue(m, a, done[tx.nonce := tx]), managed := p.managed[a := tx.nonce + 1])
  {
    assert Of(p.pending, a) == Of(m, a) + done;
    assert (Of(m, a) + done)[tx.nonce := tx] == Of(m, a) + done[tx.nonce := tx];
    assert p.all + {tx} == p.all;
  }

  lemma WithinStep(items: Items, lo: nat, n: nat)
    requires lo <= n && n in items
    ensures Within(items, lo, n + 1) == Within(items, lo, n)[n := items[n]]
  {
  }

  /** A known transaction whose nonce is free in the pending list. */
  ghost predicate Free(p: Pool, a: Addr, fit: Items, n: nat) {
    n in fit && fit[n].nonce == n && fit[n].sender == a && fit[n] in p.all && n !in Of(p.pending, a)
  }

  ghost predicate RunFree(p: Pool, a: Addr, fit: Items, lo: nat, hi: nat) {
    forall n {:trigger Free(p, a, fit, n)} :: lo <= n < hi ==> Free(p, a, fit, n)
  }

  lemma RunIsFree(p: Pool, a: Addr, fit: Items, start: nat, lo: nat, hi: nat)
    requires Listed(fit, a, p.all) && fit.Keys !! Of(p.pending, a).Keys && ExecutableRange(fit, start, lo, hi)
    ensures lo <= hi && RunFree(p, a, fit, lo, hi)
  {
  }

  lemma RunStarts(p: Pool, a: Addr, fit: Items, lo: nat)
    ensures RunPromoted(p, a, fit, lo, lo) == p
  {
    assert Within(fit, lo, lo) == map[];
  }

  /** Promoting the next transaction of a run. */
  lemma RunStep(p: Pool, a: Addr, fit: Items, lo: nat, n: nat, bump: nat)
    requires lo <= n && Free(p, a, fit, n)
    ensures Promoted(RunPromoted(p, a, fit, lo, n), fit[n], bump) == RunPromoted(p, a, fit, lo, n + 1)
  {
    PromoteStep(RunPromoted(p, a, fit, lo, n), p.pending, a, Within(fit, lo, n), fit[n], bump);
    WithinStep(fit, lo, n);
  }

  /** With nothing queued, promotion changes nothing. */
  lemma NothingQueued(p: Pool, chain: Chain, a: Addr, local: bool, cap: nat)
    requires a !in p.queue
    ensures AccountPromoted(p, p, chain, a, local, cap, 0, 0)
  {
    assert Fit(p, chain, a) == map[];
    assert Outside(map[], 0, 0) == map[] && Within(map[], 0, 0) == map[];
    assert forall b :: SameAccount(p, p, b);
  }

  /** What fits is still known once the rest of the queue has been forgotten. */
  lemma FitKnown(p: Pool, fit: Items, base: nat, a: Addr)
    requires AccountOk(p, a) && FromQueue(fit, Of(p.queue, a), base)
    ensures Listed(fit, a, p.all - Lost(Of(p.queue, a), fit)) && fit.Keys !! Of(p.pending, a).Keys
  {
  }

  lemma PromotedFromOk(p: Pool, q: Pool, a: Addr, base: nat, start: nat, fit: Items, local: bool, cap: nat, lo: nat,
                       hi: nat)
    requires AccountOk(p, a) && FromQueue(fit, Of(p.queue, a), base)
    requires PromotedFrom(p, q, a, start, fit, local, cap, lo, hi)
    ensures AccountOk(q, a)
  {
    assert forall n :: n in Of(q.queue, a) ==> n in Outside(fit, lo, hi);
    SplitOk(p.all, q.all, a, Of(p.pending, a), Of(p.queue, a), fit, lo, hi, Of(q.queue, a));
  }

  /** Moving part of a queue to pending and dropping other parts keeps both lists filed, known and apart. */
  lemma SplitOk(all: set<Tx>, left: set<Tx>, a: Addr, pending: Items, list: Items, fit: Items, lo: nat, hi: nat,
                queue: Items)
    requires Listed(pending, a, all) && Listed(list, a, all) && pending.Keys !! list.Keys
    requires forall n :: n in fit ==> n in list && fit[n] == list[n]
    requires forall n :: n in queue ==> n in fit && queue[n] == fit[n] && !(lo <= n < hi)
    requires left == all - Lost(list, fit) - Lost(Outside(fit, lo, hi), queue)
    ensures Listed(pending + Within(fit, lo, hi), a, left) && Listed(queue, a, left)
    ensures (pending + Within(fit, lo, hi)).Keys !! queue.Keys
  {
    var dropped := Lost(list, fit) + Lost(Outside(fit, lo, hi), queue);
    forall t | t in dropped ensures t.nonce in list && list[t.nonce] == t && t.nonce !in queue &&
        !(t.nonce in fit && lo <= t.nonce < hi) {
    }
  }

  lemma PromotedFromContiguous(p: Pool, q: Pool, a: Addr, base: nat, start: nat, fit: Items, local: bool, cap: nat,
                               lo: nat, hi: nat)
    requires AccountOk(p, a) && FromQueue(fit, Of(p.queue, a), base)
    requires PromotedFrom(p, q, a, start, fit, local, cap, lo, hi) && Interval(Of(p.pending, a), base, start)
    ensures Interval(Of(q.pending, a), base, if lo == hi then start else hi)
    ensures (if lo == hi then start else hi) !in Of(q.queue, a)
    ensures lo < hi ==> lo == start
  {
    RunJoins(Of(p.pending, a), Of(p.queue, a), fit, base, start, lo, hi);
    assert forall n :: n in Of(q.queue, a) ==> n in Outside(fit, lo, hi);
  }

  /** A run that joins an interval of nonces it shares none with starts right behind it. */
  lemma RunJoins(pending: Items, list: Items, fit: Items, base: nat, start: nat, lo: nat, hi: nat)
    requires Interval(pending, base, start) && pending.Keys !! list.Keys
    requires FromQueue(fit, list, base) && ExecutableRange(fit, start, lo, hi)
    ensures lo < hi ==> lo == start
    ensures Interval(pending + Within(fit, lo, hi), base, if lo == hi then start else hi)
    ensures (if lo == hi then start else hi) !in Outside(fit, lo, hi)
  {
    if lo < hi {
      assert lo in fit && lo !in pending;
      assert Interval(Within(fit, lo, hi), lo, hi);
    } else {
      assert start !in fit;
      assert Within(fit, lo, hi) == map[];
    }
  }

  /**
   In a contiguous account what is promoted starts exactly at the virtual nonce, and
   nothing executable stays behind.
   */
  lemma PromotionContiguous(p: Pool, q: Pool, chain: Chain, a: Addr, local: bool, cap: nat, lo: nat, hi: nat)
    requires AccountOk(p, a) && AccountPromoted(p, q, chain, a, local, cap, lo, hi) && Contiguous(p, chain, a)
    ensures Contiguous(q, chain, a)
    ensures Start(q, chain, a) !in Of(q.queue, a)
    ensures lo < hi ==> lo == Start(p, chain, a) && hi == Start(q, chain, a)
  {
    FitIs(p, chain, a);
    PromotedFromContiguous(p, q, a, chain.nonce(a), Start(p, chain, a), Fit(p, chain, a), local, cap, lo, hi);
  }

  lemma {:induction false} LeastExists(items: Items, n: nat)
    requires n in items
    ensures exists m | m in items :: StartsAt(items, n, m)
    decreases n
  {
    if m :| m in items && m < n {
      LeastExists(items, m);
      var k :| k in items && StartsAt(items, m, k);
      assert StartsAt(items, n, k);
    } else {
      assert StartsAt(items, n, n);
    }
  }

  lemma PromotionKeeps(p: Pool, q: Pool, chain: Chain, a: Addr, local: bool, cap: nat, lo: nat, hi: nat)
    requires PoolOk(p) && AccountPromoted(p, q, chain, a, local, cap, lo, hi)
    ensures PoolOk(q) && Steady(p, q, chain, {a}, {})
  {
    assert AccountOk(p, a);
    FitIs(p, chain, a);
    PromotedFromOk(p, q, a, chain.nonce(a), Start(p, chain, a), Fit(p, chain, a), local, cap, lo, hi);
    ElsewhereOk(p, q, a);
    if Contiguous(p, chain, a) {
      PromotionContiguous(p, q, chain, a, local, cap, lo, hi);
    }
    ElsewhereSteady(p, q, a, chain, {a}, {});
  }

  // ---------------------------------------------------------------------------
  // Demotion
  // ---------------------------------------------------------------------------

  function Unpayables(items: Items, cost: nat, gas: nat): Items {
    map n | n in items && Unpayable(items[n], cost, gas) :: items[n]
  }

  /** The pending transactions of `a` that are neither stale, too costly, nor behind a too costly one. */
  function Sound(p: Pool, chain: Chain, a: Addr): Items {
    Payable(FromNonce(Of(p.pending, a), chain.nonce(a)), true, chain.balance(a), chain.maxGas)
  }

  /** Those that stay pending: all the sound ones, unless the chain nonce itself is missing. */
  function Stays(p: Pool, chain: Chain, a: Addr): Items {
    if chain.nonce(a) in Sound(p, chain, a) then Sound(p, chain, a) else map[]
  }

  /** Sound transactions behind a missing chain nonce. */
  function Misplaced(sound: Items, base: nat): Items {
    if base in sound then map[] else sound
  }

  /** Demotion of one account: stale and unpayable transactions go, the others that cannot stay are queued again. */
  function Demoted(p: Pool, chain: Chain, a: Addr): Pool {
    var list := Of(p.pending, a);
    var kept := FromNonce(list, chain.nonce(a));
    var bad, sound, stays := Unpayables(kept, chain.balance(a), chain.maxGas), Sound(p, chain, a), Stays(p, chain, a);
    Pool(if stays == map[] then p.pending - {a} else p.pending[a := stays],
         WithQueue(WithQueue(p.queue, a, kept - sound.Keys - bad.Keys), a, Misplaced(sound, chain.nonce(a))),
         p.all - Lost(list, kept) - bad.Values,
         p.managed)
  }

  lemma DemotedAccount(p: Pool, chain: Chain, a: Addr)
    ensures var q := Demoted(p, chain, a);
            var kept := FromNonce(Of(p.pending, a), chain.nonce(a));
            var bad := Unpayables(kept, chain.balance(a), chain.maxGas);
            && Of(q.pending, a) == Stays(p, chain, a)
            && Of(q.queue, a) == Of(p.queue, a) + (kept - Stays(p, chain, a).Keys - bad.Keys)
  {
    var q := Demoted(p, chain, a);
    var kept := FromNonce(Of(p.pending, a), chain.nonce(a));
    var bad := Unpayables(kept, chain.balance(a), chain.maxGas);
    var sound, stays := Sound(p, chain, a), Stays(p, chain, a);
    WithQueueOf(p.queue, a, kept - sound.Keys - bad.Keys);
    WithQueueOf(WithQueue(p.queue, a, kept - sound.Keys - bad.Keys), a, Misplaced(sound, chain.nonce(a)));
    assert sound - stays.Keys == Misplaced(sound, chain.nonce(a));
    JoinBack(Of(p.queue, a), kept, sound, stays, bad);
  }

  lemma JoinBack(f: Items, kept: Items, sound: Items, stays: Items, bad: Items)
    requires forall n :: n in sound ==> n in kept && sound[n] == kept[n] && n !in bad
    requires stays.Keys <= sound.Keys
    ensures f + (kept - sound.Keys - bad.Keys) + (sound - stays.Keys) == f + (kept - stays.Keys - bad.Keys)
  {
  }

  lemma WithQueueOf(m: map<Addr, Items>, a: Addr, more: Items)
    ensures Of(WithQueue(m, a, more), a) == Of(m, a) + more
    ensures forall b :: b != a ==> Of(WithQueue(m, a, more), b) == Of(m, b)
  {
  }

  lemma DemotedAccountOk(p: Pool, chain: Chain, a: Addr)
    requires AccountOk(p, a)
    ensures AccountOk(Demoted(p, chain, a), a)
  {
    var q, list := Demoted(p, chain, a), Of(p.pending, a);
    var kept := FromNonce(list, chain.nonce(a));
    var bad := Unpayables(kept, chain.balance(a), chain.maxGas);
    DemotedAccount(p, chain, a);
    forall t | t in bad.Values ensures t.sender == a && t.nonce in bad && t == list[t.nonce] {
      var n :| n in bad && bad[n] == t;
    }
    forall n | n in Of(q.queue, a) ensures Of(q.queue, a)[n].nonce == n && Of(q.queue, a)[n].sender == a &&
        Of(q.queue, a)[n] in q.all {
      if n in Of(p.queue, a) {
        assert n !in list;
      }
    }
  }

  lemma DemotedTouches(p: Pool, chain: Chain, a: Addr)
    requires AccountOk(p, a)
    ensures Touches(p, Demoted(p, chain, a), a)
  {
    var q, list := Demoted(p, chain, a), Of(p.pending, a);
    var kept := FromNonce(list, chain.nonce(a));
    var bad, sound, stays := Unpayables(kept, chain.balance(a), chain.maxGas), Sound(p, chain, a), Stays(p, chain, a);
    WithQueueOf(p.queue, a, kept - sound.Keys - bad.Keys);
    WithQueueOf(WithQueue(p.queue, a, kept - sound.Keys - bad.Keys), a, Misplaced(sound, chain.nonce(a)));
    forall b | b != a ensures SameAccount(p, q, b) {
    }
    forall t | t in bad.Values ensures t.sender == a {
      var n :| n in bad && bad[n] == t;
    }
  }

  /** A strict scan keeps what lies below the least unpayable nonce. */
  lemma SoundIs(items: Items, cost: nat, gas: nat, k: nat)
    requires var bad := Unpayables(items, cost, gas); k in bad && forall m | m in bad :: k <= m
    ensures Payable(items, true, cost, gas) == BelowNonce(items, k)
  {
    var bad := Unpayables(items, cost, gas);
    forall n | n in items ensures n in Payable(items, true, cost, gas) <==> n < k {
      if n < k {
        assert forall m | m in items && Unpayable(items[m], cost, gas) :: m in bad;
      }
    }
  }

  /** Of consecutive transactions, those that are payable and below every unpayable one are consecutive. */
  lemma PayableInterval(kept: Items, base: nat, hi: nat, cost: nat, gas: nat)
    requires Interval(kept, base, hi)
    ensures exists k :: Interval(Payable(kept, true, cost, gas), base, k)
  {
    var sound, bad := Payable(kept, true, cost, gas), Unpayables(kept, cost, gas);
    if m :| m in bad {
      LeastExists(bad, m);
      var k :| k in bad && StartsAt(bad, m, k);
      SoundIs(kept, cost, gas, k);
      assert Interval(sound, base, k);
    } else {
      forall n | n in kept ensures !Unpayable(kept[n], cost, gas) { assert n !in bad; }
      assert sound == kept;
    }
  }

  /** Whatever the new chain state, a gapless pending list is left running from the chain nonce. */
  lemma DemotedInterval(p: Pool, chain: Chain, a: Addr)
    requires NoGap(p, a)
    ensures exists hi :: Interval(Of(Demoted(p, chain, a).pending, a), chain.nonce(a), hi)
  {
    var list, base := Of(p.pending, a), chain.nonce(a);
    DemotedAccount(p, chain, a);
    var lo, hi :| Interval(list, lo, hi);
    if base in Sound(p, chain, a) {
      assert Interval(FromNonce(list, base), base, hi);
      PayableInterval(FromNonce(list, base), base, hi, chain.balance(a), chain.maxGas);
    } else {
      assert Interval(map[], base, base);
    }
  }

  lemma DemotedKeeps(p: Pool, chain: Chain, a: Addr)
    requires PoolOk(p)
    ensures PoolOk(Demoted(p, chain, a))
  {
    assert AccountOk(p, a);
    DemotedAccountOk(p, chain, a);
    DemotedTouches(p, chain, a);
    ElsewhereOk(p, Demoted(p, chain, a), a);
  }

  /** The pending nonces run from the chain nonce on. */
  ghost predicate FromBase(p: Pool, chain: Chain, a: Addr) {
    exists hi :: Interval(Of(p.pending, a), chain.nonce(a), hi)
  }

  /** How far demotion has come for one account. */
  ghost predicate DemotedSoFar(p: Pool, q: Pool, chain: Chain, todo: set<Addr>, a: Addr) {
    if a in todo then SameAccount(p, q, a) && a in q.pending
    else (NoGap(p, a) ==> FromBase(q, chain, a)) && (a in q.pending ==> q.pending[a] != map[])
  }

  ghost predicate AllDemotedSoFar(p: Pool, q: Pool, chain: Chain, todo: set<Addr>) {
    forall a {:trigger DemotedSoFar(p, q, chain, todo, a)} :: DemotedSoFar(p, q, chain, todo, a)
  }

  lemma DemotionStarts(p: Pool, chain: Chain)
    ensures AllDemotedSoFar(p, p, chain, p.pending.Keys)
  {
    forall a ensures DemotedSoFar(p, p, chain, p.pending.Keys, a) {
      assert a !in p.pending ==> Interval(Of(p.pending, a), chain.nonce(a), chain.nonce(a));
    }
  }

  lemma DemotionStep(p: Pool, q: Pool, chain: Chain, todo: set<Addr>, a: Addr)
    requires PoolOk(q) && AllDemotedSoFar(p, q, chain, todo) && a in todo
    ensures AllDemotedSoFar(p, Demoted(q, chain, a), chain, todo - {a})
  {
    var r := Demoted(q, chain, a);
    assert AccountOk(q, a);
    DemotedTouches(q, chain, a);
    assert DemotedSoFar(p, q, chain, todo, a);
    if NoGap(p, a) {
      DemotedInterval(q, chain, a);
    }
    forall b ensures DemotedSoFar(p, r, chain, todo - {a}, b) {
      if b != a {
        assert DemotedSoFar(p, q, chain, todo, b) && SameAccount(q, r, b);
      }
    }
  }

  /** What may be queued again once the stale and the unpayable ones have been forgotten. */
  lemma BackKnown(p: Pool, chain: Chain, a: Addr)
    requires AccountOk(p, a)
    ensures var list := Of(p.pending, a); var kept := FromNonce(list, chain.nonce(a));
            var bad, sound := Unpayables(kept, chain.balance(a), chain.maxGas), Sound(p, chain, a);
            var left := p.all - Lost(list, kept) - bad.Values;
            && Listed(kept - sound.Keys - bad.Keys, a, left) && Listed(sound, a, left)
            && (kept - sound.Keys - bad.Keys).Keys !! Of(p.queue, a).Keys && sound.Keys !! Of(p.queue, a).Keys
            && sound.Keys !! (kept - sound.Keys - bad.Keys).Keys
  {
    var list := Of(p.pending, a);
    var kept := FromNonce(list, chain.nonce(a));
    var bad, sound := Unpayables(kept, chain.balance(a), chain.maxGas), Sound(p, chain, a);
    forall t | t in bad.Values ensures t.nonce in bad && t == list[t.nonce] {
      var n :| n in bad && bad[n] == t;
    }
    assert forall n :: n in sound ==> n in kept && n !in bad;
  }

  // ---------------------------------------------------------------------------
  // Truncation of one pending list
  // ---------------------------------------------------------------------------

  predicate IsGreatest(items: Items, n: nat) {
    n in items && forall m | m in items :: m <= n
  }

  /** Dropping the highest pending transaction of `a`. */
  function Cut(p: Pool, chain: Chain, a: Addr, top: nat): Pool
    requires a in p.pending && top in p.pending[a]
  {
    p.(pending := p.pending[a := p.pending[a] - {top}],
       all := p.all - {p.pending[a][top]},
       managed := if Virtual(p.managed, chain, a) > top then p.managed[a := top] else p.managed)
  }

  lemma CutKeeps(p: Pool, chain: Chain, a: Addr, top: nat)
    requires PoolOk(p) && a in p.pending && IsGreatest(p.pending[a], top)
    ensures PoolOk(Cut(p, chain, a, top)) && Steady(p, Cut(p, chain, a, top), chain, {}, {})
  {
    var q, l := Cut(p, chain, a, top), p.pending[a];
    assert AccountOk(p, a);
    assert l - {top} == BelowNonce(l, top);
    assert AccountOk(q, a);
    ElsewhereOk(p, q, a);
    if Contiguous(p, chain, a) {
      CutInterval(l, top, chain.nonce(a), Virtual(p.managed, chain, a));
    }
    if NoGap(p, a) {
      var lo, hi :| Interval(l, lo, hi);
      CutInterval(l, top, lo, hi);
    }
    ElsewhereSteady(p, q, a, chain, {}, {});
  }

  ghost predicate Pends(p: Pool, t: Tx) {
    t.nonce in Of(p.pending, t.sender) && Of(p.pending, t.sender)[t.nonce] == t
  }

  /** Some pending transactions are dropped and forgotten; nothing else changes hands. */
  ghost predicate OnlyCut(p: Pool, q: Pool) {
    && q.queue == p.queue
    && (forall t {:trigger Pends(q, t)} :: Pends(q, t) ==> Pends(p, t))
    && (forall t {:trigger t in q.all} :: t in q.all <==> t in p.all && (Pends(p, t) ==> Pends(q, t)))
  }

  lemma CutOnly(p: Pool, chain: Chain, a: Addr, top: nat)
    requires PoolOk(p) && a in p.pending && top in p.pending[a]
    ensures OnlyCut(p, Cut(p, chain, a, top))
  {
    assert AccountOk(p, a);
    var q, tx := Cut(p, chain, a, top), p.pending[a][top];
    forall t ensures Pends(q, t) <==> Pends(p, t) && t != tx {
    }
  }

  lemma OnlyCutTrans(p: Pool, q: Pool, r: Pool)
    requires OnlyCut(p, q) && OnlyCut(q, r)
    ensures OnlyCut(p, r)
  {
    forall t | Pends(r, t) ensures Pends(p, t) {
      assert Pends(q, t);
    }
    forall t ensures t in r.all <==> t in p.all && (Pends(p, t) ==> Pends(r, t)) {
      assert t in q.all <==> t in p.all && (Pends(p, t) ==> Pends(q, t));
    }
  }

  ghost predicate Queues(p: Pool, t: Tx) {
    t.nonce in Of(p.queue, t.sender) && Of(p.queue, t.sender)[t.nonce] == t
  }

  /** Some queued transactions are dropped and forgotten; nothing else changes. */
  ghost predicate OnlyTrimmed(p: Pool, q: Pool) {
    && q.pending == p.pending && q.managed == p.managed
    && (forall t {:trigger Queues(q, t)} :: Queues(q, t) ==> Queues(p, t))
    && (forall t {:trigger t in q.all} :: t in q.all <==> t in p.all && (Queues(p, t) ==> Queues(q, t)))
  }

  lemma OnlyTrimmedTrans(p: Pool, q: Pool, r: Pool)
    requires OnlyTrimmed(p, q) && OnlyTrimmed(q, r)
    ensures OnlyTrimmed(p, r)
  {
    forall t | Queues(r, t) ensures Queues(p, t) {
      assert Queues(q, t);
    }
    forall t ensures t in r.all <==> t in p.all && (Queues(p, t) ==> Queues(r, t)) {
      assert t in q.all <==> t in p.all && (Queues(p, t) ==> Queues(q, t));
    }
  }

  /** Removing a queued transaction only trims. */
  lemma RemovedTrims(p: Pool, chain: Chain, a: Addr, n: nat)
    requires PoolOk(p) && a in p.queue && n in p.queue[a]
    ensures var tx := p.queue[a][n];
            && OnlyTrimmed(p, Removed(p, chain, tx))
            && Removed(p, chain, tx).queue == Filed(p.queue, a, p.queue[a] - {n})
  {
    assert AccountOk(p, a);
    var tx := p.queue[a][n];
    var q := Removed(p, chain, tx);
    RemovedQueued(p, chain, tx);
    assert q.queue == Filed(p.queue, a, p.queue[a] - {n});
    forall t ensures Queues(q, t) <==> Queues(p, t) && t != tx {
      FiledAt(p.queue, a, p.queue[a] - {n}, t.sender);
    }
  }

  lemma FiledAt(m: map<Addr, Items>, a: Addr, f: Items, b: Addr)
    ensures Of(Filed(m, a, f), b) == if b == a then f else Of(m, b)
  {
  }


  lemma {:induction false} GreatestExists(items: Items)
    requires items != map[]
    ensures exists n | n in items :: IsGreatest(items, n)
    decreases |items|
  {
    var k :| k in items;
    var rest := items - {k};
    KeysWithout(items, k);
    assert forall m :: m in items ==> m == k || m in rest;
    if rest == map[] {
      assert IsGreatest(items, k);
    } else {
      GreatestExists(rest);
      var n :| n in rest && IsGreatest(rest, n);
      assert IsGreatest(items, if k < n then n else k);
    }
  }

  /** Dropping the greatest nonce of the k + 1 lowest ones leaves the k lowest. */
  lemma LowestStep(items: Items, r: Items, top: nat)
    requires IsLowest(items, r, |r|) && IsGreatest(r, top)
    ensures IsLowest(items, r - {top}, |r| - 1) && |r - {top}| == |r| - 1
  {
    KeysWithout(r, top);
    LowestFits(items, r, |r|);
  }

  lemma LowestFits(items: Items, r: Items, k: nat)
    requires IsLowest(items, r, k)
    ensures |r| <= |items|
    ensures k >= |items| ==> r == items
  {
    assert r.Keys <= items.Keys;
    SubsetSize(r.Keys, items.Keys);
  }

  lemma LowestRefl(items: Items)
    ensures IsLowest(items, items, |items|)
  {
  }

  /** Keeps the `k` lowest-nonced transactions. */
  method Lowest(items: Items, k: nat) returns (r: Items)
    ensures IsLowest(items, r, k)
  {
    r := items;
    while |r| > k
      invariant IsLowest(items, r, |r|) && (|r| == |items| || |r| >= k)
      decreases |r|
    {
      var top := Highest(r);
      LowestStep(items, r, top);
      r := r - {top};
    }
    LowestFits(items, r, |r|);
  }

  lemma NoneReady(items: Items, start: nat)
    requires forall n | n in items :: !StartsAt(items, start, n)
    ensures forall m :: m in items ==> start < m
  {
    forall m | m in items ensures start < m {
      LeastExists(items, m);
      var k :| k in items && StartsAt(items, m, k);
      assert !StartsAt(items, start, k);
    }
  }

  /** Finds the executable nonces. */
  method ReadyRange(items: Items, start: nat) returns (lo: nat, hi: nat)
    ensures ExecutableRange(items, start, lo, hi)
  {
    if n :| n in items && StartsAt(items, start, n) {
      lo, hi := n, n;
      ghost var left := items.Keys;
      while hi in items
        invariant lo <= hi && (forall m :: lo <= m < hi ==> m in items)
        invariant left == set m | m in items && !(lo <= m < hi)
        decreases |left|
      {
        assert hi in left;
        left := left - {hi};
        hi := hi + 1;
      }
    } else {
      lo, hi := 0, 0;
      NoneReady(items, start);
    }
  }

  /** The virtual nonce of a pending account is set right behind its highest nonce. */
  ghost predicate SetBehind(pending: map<Addr, Items>, managed: map<Addr, nat>, a: Addr) {
    a in pending ==> a in managed && managed[a] > 0 && IsGreatest(pending[a], managed[a] - 1)
  }

  ghost predicate SameNonce(m: map<Addr, nat>, n: map<Addr, nat>, a: Addr) {
    if a in m then a in n && n[a] == m[a] else a !in n
  }

  /** Pending accounts outside `todo` are set, the others as they were. */
  ghost predicate NonceDone(pending: map<Addr, Items>, m: map<Addr, nat>, n: map<Addr, nat>, todo: set<Addr>, a: Addr) {
    if a in pending && a !in todo then SetBehind(pending, n, a) else SameNonce(m, n, a)
  }

  /** Computes the virtual nonces of all accounts with pending transactions. */
  method NextNonces(pending: map<Addr, Items>, managed: map<Addr, nat>) returns (next: map<Addr, nat>)
    requires forall a :: a in pending ==> pending[a] != map[]
    ensures forall a {:trigger NonceDone(pending, managed, next, {}, a)} :: NonceDone(pending, managed, next, {}, a)
  {
    next := managed;
    var todo := pending.Keys;
    while todo != {}
      invariant todo <= pending.Keys
      invariant forall a {:trigger NonceDone(pending, managed, next, todo, a)} ::
                  NonceDone(pending, managed, next, todo, a)
      decreases |todo|
    {
      var a :| a in todo;
      var top := Highest(pending[a]);
      NonceStep(pending, managed, next, todo, a, top);
      next, todo := next[a := top + 1], todo - {a};
    }
  }

  method Highest(items: Items) returns (top: nat)
    requires items != map[]
    ensures IsGreatest(items, top)
  {
    GreatestExists(items);
    top :| top in items && IsGreatest(items, top);
  }

  lemma NonceStep(pending: map<Addr, Items>, m: map<Addr, nat>, n: map<Addr, nat>, todo: set<Addr>, a: Addr, top: nat)
    requires forall b {:trigger NonceDone(pending, m, n, todo, b)} :: NonceDone(pending, m, n, todo, b)
    requires a in todo && a in pending && IsGreatest(pending[a], top)
    ensures forall b {:trigger NonceDone(pending, m, n[a := top + 1], todo - {a}, b)} ::
              NonceDone(pending, m, n[a := top + 1], todo - {a}, b)
  {
    var next, rest := n[a := top + 1], todo - {a};
    forall b ensures NonceDone(pending, m, next, rest, b) {
      assert NonceDone(pending, m, n, todo, b);
    }
  }

  lemma NonceBehind(p: Pool, q: Pool, chain: Chain, a: Addr)
    requires q.pending == p.pending && a in p.pending && SetBehind(p.pending, q.managed, a) && FromBase(p, chain, a)
    ensures Contiguous(q, chain, a)
  {
    var hi: nat :| Interval(Of(p.pending, a), chain.nonce(a), hi);
    assert q.managed[a] - 1 in p.pending[a];
    assert hi - 1 in p.pending[a];
  }
}
