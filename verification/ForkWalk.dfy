/**
 The walk from two heads down to their last common ancestor, as used when the
 chain indexer learns of a reorg and when the transaction pool collects the
 transactions a reorg left behind.  The third walk, inside `reorg`, is in
 module `BlockChain`.
 */
module ForkWalk {
  import opened ChainTree
  import opened Options

  /** The lookup of a block's parent, keyed by the parent hash and the preceding number. */
  function ParentIn(db: map<Key, Block>, b: Block): Option<Block> {
    if (b.parent, b.number - 1) in db then Some(db[(b.parent, b.number - 1)]) else None
  }

  lemma ParentInIs(db: map<Key, Block>, b: Block)
    requires TableOk(db) && ParentIn(db, b).Some?
    ensures b.parent.Of? && ParentIn(db, b).value == b.parent.block && b.parent.block.number == b.number - 1
  {
  }

  /** `c` is `b` or one of the ancestors that can be looked up from it. */
  ghost predicate Above(db: map<Key, Block>, b: Block, c: Block)
    requires TableOk(db)
    decreases b
  {
    b == c ||
    (ParentIn(db, b).Some? && (ParentInIs(db, b); Above(db, ParentIn(db, b).value, c)))
  }

  lemma {:induction false} AboveNumber(db: map<Key, Block>, b: Block, c: Block)
    requires TableOk(db) && Above(db, b, c)
    ensures c == b || c.number < b.number
    decreases b
  {
    if b != c {
      ParentInIs(db, b);
      AboveNumber(db, ParentIn(db, b).value, c);
    }
  }

  ghost predicate Common(db: map<Key, Block>, a: Block, b: Block, c: Block)
    requires TableOk(db)
  {
    Above(db, a, c) && Above(db, b, c)
  }

  /** `c` is a common ancestor, and every common ancestor is an ancestor of `c`. */
  ghost predicate LastCommon(db: map<Key, Block>, a: Block, b: Block, c: Block)
    requires TableOk(db)
  {
    && Common(db, a, b, c)
    && (forall d :: Common(db, a, b, d) ==> Above(db, c, d))
  }

  /** There is at most one last common ancestor, so any two walks that find one find the same. */
  lemma LastCommonUnique(db: map<Key, Block>, a: Block, b: Block, c: Block, d: Block)
    requires TableOk(db) && LastCommon(db, a, b, c) && LastCommon(db, a, b, d)
    ensures c == d
  {
    AboveNumber(db, c, d);
    AboveNumber(db, d, c);
  }

  /** Stepping down from the higher (or an equally high, different) block loses no common ancestor. */
  lemma StepDown(db: map<Key, Block>, a: Block, b: Block)
    requires TableOk(db) && a != b && a.number >= b.number
    ensures !Above(db, b, a)
    ensures ParentIn(db, a).None? ==> forall c :: !Common(db, a, b, c)
    ensures ParentIn(db, a).Some? ==> forall c :: Common(db, a, b, c) <==> Common(db, ParentIn(db, a).value, b, c)
  {
    if Above(db, b, a) { AboveNumber(db, b, a); }
    if ParentIn(db, a).Some? { ParentInIs(db, a); }
  }

  /**
   The last common ancestor of two headers, or nothing.  No assumption is made
   on what is stored: the walk returns nothing exactly when the two headers
   have no ancestor in common that can be looked up from both.
   */
  method FindCommonAncestor(db: map<Key, Block>, a0: Block, b0: Block) returns (r: Option<Block>)
    requires TableOk(db)
    ensures r.Some? ==> LastCommon(db, a0, b0, r.value)
    ensures r.None? <==> forall c :: !Common(db, a0, b0, c)
  {
    var a, b := a0, b0;
    var bn := b.number;
    while a.number > bn
      invariant a.number >= bn || a == a0
      invariant forall c :: Common(db, a0, b0, c) <==> Common(db, a, b, c)
      decreases a.number
    {
      StepDown(db, a, b);
      var p := ParentIn(db, a);
      if p.None? { return None; }
      ParentInIs(db, a);
      a := p.value;
    }
    var an := a.number;
    while an < b.number
      invariant a.number <= b.number
      invariant forall c :: Common(db, a0, b0, c) <==> Common(db, a, b, c)
      decreases b.number
    {
      StepDown(db, b, a);
      var p := ParentIn(db, b);
      if p.None? { return None; }
      ParentInIs(db, b);
      b := p.value;
    }
    while Of(a) != Of(b)
      invariant a.number == b.number
      invariant forall c :: Common(db, a0, b0, c) <==> Common(db, a, b, c)
      decreases a.number
    {
      StepDown(db, a, b);
      var p := ParentIn(db, a);
      if p.None? { return None; }
      ParentInIs(db, a);
      a := p.value;
      StepDown(db, b, a);
      p := ParentIn(db, b);
      if p.None? { return None; }
      ParentInIs(db, b);
      b := p.value;
    }
    assert Common(db, a, b, a);
    return Some(a);
  }

  // ---------------------------------------------------------------------------
  // The pool's walk
  // ---------------------------------------------------------------------------

  /** The transactions of the blocks from `b` down to, but without, its ancestor `c`. */
  ghost function BranchTxs(db: map<Key, Block>, b: Block, c: Block): seq<TxHash>
    requires TableOk(db) && Above(db, b, c)
    decreases b
  {
    if b == c then [] else
      ParentInIs(db, b);
      b.txs + BranchTxs(db, ParentIn(db, b).value, c)
  }

  /** Extending a walk from `b` down to `m` by one more step. */
  lemma {:induction false} BranchStep(db: map<Key, Block>, b: Block, m: Block)
    requires TableOk(db) && Above(db, b, m) && ParentIn(db, m).Some?
    ensures var p := ParentIn(db, m).value;
      Above(db, b, p) && BranchTxs(db, b, p) == BranchTxs(db, b, m) + m.txs
    decreases b
  {
    ParentInIs(db, m);
    var p := ParentIn(db, m).value;
    if b == m {
      assert BranchTxs(db, p, p) == [];
      assert b != p;
    } else {
      ParentInIs(db, b);
      AboveNumber(db, b, m);
      BranchStep(db, ParentIn(db, b).value, m);
      AboveNumber(db, ParentIn(db, b).value, p);
      AboveNumber(db, m, p);
      assert b != p;
    }
  }

  /** The elements of `a` that do not occur in `b`, in order. */
  function TxDifference(a: seq<TxHash>, b: seq<TxHash>): (keep: seq<TxHash>)
    ensures forall t :: t in keep <==> t in a && t !in b
  {
    if a == [] then [] else
      (if a[0] in b then [] else [a[0]]) + TxDifference(a[1..], b)
  }

  datatype Reinjection = Skipped | Unrooted | Reinject(txs: seq<TxHash>)

  /**
   What the pool puts back after the head moved from `oldHead` to `newHead`:
   the transactions of the abandoned branch that the new branch does not
   contain.  Nothing is collected for a plain extension or when the heights
   differ by more than 64; a missing ancestor gives up.
   */
  method CollectReinjection(db: map<Key, Block>, oldHead: Block, newHead: Block) returns (r: Reinjection)
    requires TableOk(db)
    ensures r.Skipped? <==>
              || newHead.parent == Of(oldHead)
              || oldHead.number - newHead.number > 64
              || newHead.number - oldHead.number > 64
    ensures r.Reinject? ==>
              exists c :: LastCommon(db, oldHead, newHead, c)
                          && r.txs == TxDifference(BranchTxs(db, oldHead, c), BranchTxs(db, newHead, c))
    ensures r.Unrooted? <==> !r.Skipped? && forall c :: !Common(db, oldHead, newHead, c)
  {
    if Of(oldHead) == newHead.parent {
      return Skipped;
    }
    var depth := if oldHead.number >= newHead.number then oldHead.number - newHead.number
                 else newHead.number - oldHead.number;
    if depth > 64 {
      return Skipped;
    }
    var rem, add := oldHead, newHead;
    var discarded, included: seq<TxHash> := [], [];
    while rem.number > add.number
      invariant rem.number >= add.number || rem == oldHead
      invariant Above(db, oldHead, rem) && discarded == BranchTxs(db, oldHead, rem)
      invariant forall c :: Common(db, oldHead, newHead, c) <==> Common(db, rem, add, c)
      decreases rem.number
    {
      discarded := discarded + rem.txs;
      StepDown(db, rem, add);
      var p := ParentIn(db, rem);
      if p.None? { return Unrooted; }
      ParentInIs(db, rem);
      BranchStep(db, oldHead, rem);
      rem := p.value;
    }
    while add.number > rem.number
      invariant add.number >= rem.number
      invariant Above(db, oldHead, rem) && discarded == BranchTxs(db, oldHead, rem)
      invariant Above(db, newHead, add) && included == BranchTxs(db, newHead, add)
      invariant forall c :: Common(db, oldHead, newHead, c) <==> Common(db, rem, add, c)
      decreases add.number
    {
      included := included + add.txs;
      StepDown(db, add, rem);
      var p := ParentIn(db, add);
      if p.None? { return Unrooted; }
      ParentInIs(db, add);
      BranchStep(db, newHead, add);
      add := p.value;
    }
    while Of(rem) != Of(add)
      invariant add.number == rem.number
      invariant Above(db, oldHead, rem) && discarded == BranchTxs(db, oldHead, rem)
      invariant Above(db, newHead, add) && included == BranchTxs(db, newHead, add)
      invariant forall c :: Common(db, oldHead, newHead, c) <==> Common(db, rem, add, c)
      decreases rem.number
    {
      discarded := discarded + rem.txs;
      StepDown(db, rem, add);
      var p := ParentIn(db, rem);
      if p.None? { return Unrooted; }
      ParentInIs(db, rem);
      BranchStep(db, oldHead, rem);
      rem := p.value;
      included := included + add.txs;
      StepDown(db, add, rem);
      p := ParentIn(db, add);
      if p.None? { return Unrooted; }
      ParentInIs(db, add);
      BranchStep(db, newHead, add);
      add := p.value;
    }
    assert Common(db, rem, add, rem);
    assert LastCommon(db, oldHead, newHead, rem);
    return Reinject(TxDifference(discarded, included));
  }
}
