/**
 The block chain: writing a block re-organises the canonical chain when fork
 choice says so.  The number index, the transaction lookup table and the head
 are rewritten by several loops and a nested insert; the class invariant says
 that after every write all three describe the same path.
 */
module BlockChain {
  import opened ChainTree
  import opened HeaderChain
  import opened ForkWalk
  import opened Options

  /** The position of a transaction: block hash, block number, index in the block. */
  datatype Entry = Entry(hash: Hash, number: int, index: nat)

  datatype ReorgError = InvalidOldChain | InvalidNewChain
  datatype BlockResult = Done(status: WriteStatus) | NoAncestor | ReorgFailed(error: Option<ReorgError>)

  // ---------------------------------------------------------------------------
  // What the lookup table must hold
  // ---------------------------------------------------------------------------

  /** `t` is transaction `i` of block `j` of `p` (the genesis block aside). */
  ghost predicate At(p: seq<Block>, j: int, i: int, t: TxHash) {
    0 < j < |p| && 0 <= i < |p[j].txs| && p[j].txs[i] == t
  }

  /** No transaction occurs twice along the chain `p`. */
  ghost predicate DistinctTxs(p: seq<Block>) {
    forall j, i, k, l, t :: At(p, j, i, t) && At(p, k, l, t) ==> j == k && i == l
  }

  ghost predicate PathDistinct(b: Block, g: Block) {
    g.number == 0 && Rooted(b, g) && DistinctTxs(Path(b, g))
  }

  /** No branch that ends in a stored block repeats a transaction. */
  ghost predicate AllDistinct(g: Block, stored: set<Block>) {
    forall b {:trigger PathDistinct(b, g)} :: b in stored ==> PathDistinct(b, g)
  }

  lemma BlockTxsDistinct(p: seq<Block>, n: nat)
    requires DistinctTxs(p) && 0 < n < |p|
    ensures forall i, j :: 0 <= i < j < |p[n].txs| ==> p[n].txs[i] != p[n].txs[j]
    ensures forall j, i :: n < j < |p| && 0 <= i < |p[j].txs| ==> p[j].txs[i] !in p[n].txs
  {
    forall i, j | 0 <= i < j < |p[n].txs| ensures p[n].txs[i] != p[n].txs[j] {
      assert At(p, n, i, p[n].txs[i]) && At(p, n, j, p[n].txs[j]);
    }
    forall j, i, l | n < j < |p| && 0 <= i < |p[j].txs| && 0 <= l < |p[n].txs| ensures p[j].txs[i] != p[n].txs[l] {
      assert At(p, j, i, p[j].txs[i]) && At(p, n, l, p[n].txs[l]);
    }
  }

  /** The table points at every transaction of `p` above number `n` with its right block and index. */
  ghost predicate Located(m: map<TxHash, Entry>, p: seq<Block>, n: int)
    requires n >= 0
  {
    forall j, i :: n < j < |p| && 0 <= i < |p[j].txs| ==>
      p[j].txs[i] in m && m[p[j].txs[i]] == Entry(Of(p[j]), j, i)
  }

  /** The table holds the transactions of `p` and nothing else. */
  ghost predicate LookupIs(m: map<TxHash, Entry>, p: seq<Block>) {
    && Located(m, p, 0)
    && (forall t :: t in m ==> At(p, m[t].number, m[t].index, t))
  }

  ghost predicate InTxs(p: seq<Block>, n: int, t: TxHash)
    requires n >= 0
  {
    exists j :: n < j < |p| && t in p[j].txs
  }

  /** A transaction found at or below `k` does not occur above it. */
  lemma NotAbove(p: seq<Block>, k: nat, j: nat, i: nat, t: TxHash)
    requires DistinctTxs(p) && At(p, j, i, t) && j <= k
    ensures !InTxs(p, k, t)
  {
    forall j' | k < j' < |p| ensures t !in p[j'].txs {
      forall i' | 0 <= i' < |p[j'].txs| ensures p[j'].txs[i'] != t {
        assert At(p, j', i', p[j'].txs[i']);
      }
    }
  }

  /** Outside the transactions of `q` above `n`, the two tables agree. */
  ghost predicate SameElsewhere(now: map<TxHash, Entry>, was: map<TxHash, Entry>, q: seq<Block>, n: nat) {
    forall t :: !InTxs(q, n, t) ==> (t in now <==> t in was) && (t in now ==> now[t] == was[t])
  }

  /** The index is `was`, overwritten by the blocks of `q` above `n`. */
  ghost predicate IndexOver(now: map<int, Hash>, was: map<int, Hash>, q: seq<Block>, n: nat) {
    && (forall i :: n < i < |q| ==> i in now && now[i] == Of(q[i]))
    && (forall i :: i <= n || |q| <= i ==> (i in now <==> i in was) && (i in now ==> now[i] == was[i]))
  }

  ghost predicate HasAt(canon: map<int, Hash>, b: Block) {
    b.number in canon && canon[b.number] == Of(b)
  }

  /**
   What a reorg does to the table is right: entries of the new branch written,
   entries of the old branch dropped unless the new branch has the transaction.
   */
  lemma LookupAfterReorg(m: map<TxHash, Entry>, m': map<TxHash, Entry>, p: seq<Block>, q: seq<Block>, k: nat)
    requires LookupIs(m, p) && DistinctTxs(p) && DistinctTxs(q)
    requires k < |p| && k < |q| && (forall i :: 0 <= i <= k ==> p[i] == q[i])
    requires Located(m', q, k)
    requires forall t :: !InTxs(q, k, t) ==> (t in m' <==> t in m && !InTxs(p, k, t)) && (t in m' ==> m'[t] == m[t])
    ensures LookupIs(m', q)
  {
    forall j, i | 0 < j < |q| && 0 <= i < |q[j].txs|
      ensures q[j].txs[i] in m' && m'[q[j].txs[i]] == Entry(Of(q[j]), j, i)
    {
      var t := q[j].txs[i];
      if j <= k {
        assert p[j].txs[i] == t;
        NotAbove(q, k, j, i, t);
        NotAbove(p, k, j, i, t);
      }
    }
    forall t | t in m' ensures At(q, m'[t].number, m'[t].index, t) {
      if InTxs(q, k, t) {
        var j :| k < j < |q| && t in q[j].txs;
        var i :| 0 <= i < |q[j].txs| && q[j].txs[i] == t;
        assert m'[q[j].txs[i]] == Entry(Of(q[j]), j, i);
      } else {
        assert At(p, m[t].number, m[t].index, t) && t in p[m[t].number].txs;
      }
    }
  }

  // ---------------------------------------------------------------------------
  // The fork of two chains
  // ---------------------------------------------------------------------------

  /** The greatest number at which two chains with the same genesis agree. */
  ghost function Fork(p: seq<Block>, q: seq<Block>): (k: nat)
    requires Chained(p) && Chained(q) && p[0] == q[0]
    ensures k < |p| && k < |q| && p[k] == q[k]
    ensures forall i :: k < i < |p| && i < |q| ==> p[i] != q[i]
  {
    ForkFrom(p, q, (if |p| < |q| then |p| else |q|) - 1)
  }

  ghost function ForkFrom(p: seq<Block>, q: seq<Block>, n: nat): (k: nat)
    requires n < |p| && n < |q| && p[0] == q[0]
    ensures k <= n && p[k] == q[k]
    ensures forall i :: k < i <= n ==> p[i] != q[i]
  {
    if p[n] == q[n] then n else ForkFrom(p, q, n - 1)
  }

  /** From a chain's block one can look up exactly the blocks below it on the chain. */
  lemma {:induction false} AboveOnChain(db: map<Key, Block>, p: seq<Block>, n: nat, c: Block)
    requires TableOk(db) && Chained(p) && n < |p| && StoredIn(p[..n], db)
    ensures Above(db, p[n], c) <==> c in p[..n + 1]
  {
    if n == 0 {
      if ParentIn(db, p[0]).Some? { ParentInIs(db, p[0]); }
    } else {
      assert LinkAt(p, n) && StoredAt(p[..n], db, n - 1);
      StoredPrefix(db, p[..n], n - 1);
      assert p[..n][..n - 1] == p[..n - 1];
      AboveOnChain(db, p, n - 1, c);
      assert p[..n + 1] == p[..n] + [p[n]];
    }
  }

  lemma StoredPrefix(db: map<Key, Block>, p: seq<Block>, n: nat)
    requires StoredIn(p, db) && n <= |p|
    ensures StoredIn(p[..n], db)
  {
    var r := p[..n];
    forall i | 0 <= i < |r| ensures StoredAt(r, db, i) {
      assert StoredAt(p, db, i);
    }
  }

  /** The fork of two stored chains is the last common ancestor that every fork walk finds. */
  lemma ForkIsLastCommon(db: map<Key, Block>, p: seq<Block>, q: seq<Block>)
    requires TableOk(db) && Chained(p) && Chained(q) && p[0] == q[0]
    requires StoredIn(p[..|p| - 1], db) && StoredIn(q[..|q| - 1], db)
    ensures LastCommon(db, p[|p| - 1], q[|q| - 1], p[Fork(p, q)])
  {
    var k := Fork(p, q);
    forall c ensures Common(db, p[|p| - 1], q[|q| - 1], c) <==> Above(db, p[k], c) {
      CommonBelowFork(db, p, q, c);
    }
    assert Above(db, p[k], p[k]);
  }

  lemma CommonBelowFork(db: map<Key, Block>, p: seq<Block>, q: seq<Block>, c: Block)
    requires TableOk(db) && Chained(p) && Chained(q) && p[0] == q[0]
    requires StoredIn(p[..|p| - 1], db) && StoredIn(q[..|q| - 1], db)
    ensures Common(db, p[|p| - 1], q[|q| - 1], c) <==> Above(db, p[Fork(p, q)], c)
  {
    var k := Fork(p, q);
    assert p[..|p|] == p && q[..|q|] == q;
    AboveOnChain(db, p, |p| - 1, c);
    AboveOnChain(db, q, |q| - 1, c);
    StoredPrefix(db, p[..|p| - 1], k);
    assert p[..|p| - 1][..k] == p[..k];
    AboveOnChain(db, p, k, c);
    ChainsAgreeBelow(p, q, k);
    if Common(db, p[|p| - 1], q[|q| - 1], c) {
      var i :| 0 <= i < |p| && p[i] == c;
      var j :| 0 <= j < |q| && q[j] == c;
      assert i == j;
      assert p[..k + 1][i] == c;
    }
  }

  /**
   For stored blocks there always is a last common ancestor, and only one: the
   fork of their paths.  So the indexer's walk, the pool's walk and the walk of
   a reorg, which each find some last common ancestor, find the same block.
   */
  lemma WalksMeetAtFork(g: Block, db: map<Key, Block>, tds: map<Key, nat>, a: Block, b: Block)
    requires StoreOk(g, db, tds) && a in db.Values && b in db.Values
    ensures Chained(Path(a, g)) && Chained(Path(b, g))
    ensures LastCommon(db, a, b, Path(a, g)[Fork(Path(a, g), Path(b, g))])
    ensures forall c :: LastCommon(db, a, b, c) ==> c == Path(a, g)[Fork(Path(a, g), Path(b, g))]
  {
    PathStored(g, db, tds, a);
    PathStored(g, db, tds, b);
    var p, q := Path(a, g), Path(b, g);
    StoredPrefix(db, p, |p| - 1);
    StoredPrefix(db, q, |q| - 1);
    ForkIsLastCommon(db, p, q);
    forall c | LastCommon(db, a, b, c) ensures c == p[Fork(p, q)] {
      LastCommonUnique(db, a, b, c, p[Fork(p, q)]);
    }
  }

  /** The blocks of `p` above number `n`, highest first. */
  ghost function TopDown(p: seq<Block>, n: nat): (bs: seq<Block>)
    ensures |bs| == if |p| <= n + 1 then 0 else |p| - 1 - n
    decreases |p| - n
  {
    if |p| <= n + 1 then [] else TopDown(p, n + 1) + [p[n + 1]]
  }

  lemma {:induction false} TopDownAt(p: seq<Block>, n: nat, i: nat)
    requires n + i + 1 < |p|
    ensures TopDown(p, n)[i] == p[|p| - 1 - i]
    decreases |p| - n
  {
    if n + i + 2 < |p| {
      TopDownAt(p, n + 1, i);
    }
  }

  /** Their transactions, in the same order. */
  ghost function TxsDown(p: seq<Block>, n: nat): seq<TxHash>
    decreases |p| - n
  {
    if |p| <= n + 1 then [] else TxsDown(p, n + 1) + p[n + 1].txs
  }

  lemma {:induction false} TxsDownMembers(p: seq<Block>, n: nat, t: TxHash)
    ensures t in TxsDown(p, n) <==> InTxs(p, n, t)
    decreases |p| - n
  {
    if n + 1 < |p| {
      TxsDownMembers(p, n + 1, t);
      assert InTxs(p, n, t) <==> InTxs(p, n + 1, t) || t in p[n + 1].txs;
    }
  }

  /** One step of a walk down the chain: the collected blocks and transactions grow by the block at `n`. */
  lemma WalkStep(db: map<Key, Block>, p: seq<Block>, n: nat)
    requires Chained(p) && 0 < n < |p| && StoredIn(p[..|p| - 1], db)
    ensures ParentIn(db, p[n]) == Some(p[n - 1])
    ensures TopDown(p, n - 1) == TopDown(p, n) + [p[n]]
    ensures TxsDown(p, n - 1) == TxsDown(p, n) + p[n].txs
  {
    assert LinkAt(p, n) && StoredAt(p[..|p| - 1], db, n - 1);
  }

  /** The last of the first `n` indexes at which a transaction occurs, or -1. */
  ghost function LastIndex(txs: seq<TxHash>, n: nat, t: TxHash): (i: int)
    requires n <= |txs|
    ensures -1 <= i < n && (i >= 0 ==> txs[i] == t) && forall k :: i < k < n ==> txs[k] != t
  {
    if n == 0 then -1 else if txs[n - 1] == t then n - 1 else LastIndex(txs, n - 1, t)
  }

  ghost predicate WrittenAt(now: map<TxHash, Entry>, was: map<TxHash, Entry>, block: Block, n: nat, t: TxHash)
    requires n <= |block.txs|
  {
    var i := LastIndex(block.txs, n, t);
    if i < 0 then (t in now <==> t in was) && (t in now ==> now[t] == was[t])
    else t in now && now[t] == Entry(Of(block), block.number, i)
  }

  /** The entries of a block's first `n` transactions have been written over a table, later occurrences last. */
  ghost predicate WrittenUpTo(now: map<TxHash, Entry>, was: map<TxHash, Entry>, block: Block, n: nat)
    requires n <= |block.txs|
  {
    forall t {:trigger WrittenAt(now, was, block, n, t)} :: WrittenAt(now, was, block, n, t)
  }

  ghost predicate WrittenOver(now: map<TxHash, Entry>, was: map<TxHash, Entry>, block: Block) {
    WrittenUpTo(now, was, block, |block.txs|)
  }

  lemma WriteOne(now: map<TxHash, Entry>, was: map<TxHash, Entry>, block: Block, n: nat)
    requires n < |block.txs| && WrittenUpTo(now, was, block, n)
    ensures WrittenUpTo(now[block.txs[n] := Entry(Of(block), block.number, n)], was, block, n + 1)
  {
    var next, m: nat := now[block.txs[n] := Entry(Of(block), block.number, n)], n + 1;
    forall t ensures WrittenAt(next, was, block, m, t) {
      assert WrittenAt(now, was, block, n, t);
    }
  }

  /** A transaction the block does not have keeps its entry, or stays without one. */
  lemma WrittenElsewhere(now: map<TxHash, Entry>, was: map<TxHash, Entry>, block: Block, t: TxHash)
    requires WrittenOver(now, was, block) && t !in block.txs
    ensures (t in now <==> t in was) && (t in now ==> now[t] == was[t])
  {
    assert WrittenAt(now, was, block, |block.txs|, t);
  }

  /** Writing one more block below those already written leaves all other transactions alone. */
  lemma ElsewhereStep(before: map<TxHash, Entry>, was: map<TxHash, Entry>, now: map<TxHash, Entry>, q: seq<Block>,
                      n: nat)
    requires 0 < n < |q| && SameElsewhere(was, before, q, n) && WrittenOver(now, was, q[n])
    ensures SameElsewhere(now, before, q, n - 1)
  {
    forall t | !InTxs(q, n - 1, t) ensures (t in now <==> t in before) && (t in now ==> now[t] == before[t]) {
      assert !InTxs(q, n, t) && t !in q[n].txs;
      WrittenElsewhere(now, was, q[n], t);
    }
  }

  /** If no transaction repeats, the positions written are right and stay right. */
  lemma LocatedStep(was: map<TxHash, Entry>, now: map<TxHash, Entry>, q: seq<Block>, n: nat)
    requires Chained(q) && DistinctTxs(q) && 0 < n < |q| && Located(was, q, n) && WrittenOver(now, was, q[n])
    ensures Located(now, q, n - 1)
  {
    BlockTxsDistinct(q, n);
    forall j, i | n - 1 < j < |q| && 0 <= i < |q[j].txs|
      ensures q[j].txs[i] in now && now[q[j].txs[i]] == Entry(Of(q[j]), j, i)
    {
      var t := q[j].txs[i];
      if j == n {
        assert WrittenAt(now, was, q[n], |q[n].txs|, t);
        assert LastIndex(q[n].txs, |q[n].txs|, t) == i;
      } else {
        WrittenElsewhere(now, was, q[n], t);
      }
    }
  }

  /** A table that is right for one path has become right for the other, unless a transaction repeats on either. */
  ghost predicate Follows(was: map<TxHash, Entry>, p: seq<Block>, now: map<TxHash, Entry>, q: seq<Block>) {
    DistinctTxs(p) && DistinctTxs(q) && LookupIs(was, p) ==> LookupIs(now, q)
  }

  /** Dropping the old branch's transactions leaves the new branch's positions alone. */
  lemma DeletionKeeps(was: map<TxHash, Entry>, now: map<TxHash, Entry>, p: seq<Block>, q: seq<Block>, k: nat)
    requires Located(was, q, k)
    requires forall t :: t in now <==> t in was && !(InTxs(p, k, t) && !InTxs(q, k, t))
    requires forall t :: t in now ==> now[t] == was[t]
    ensures Located(now, q, k)
  {
    forall j, i | k < j < |q| && 0 <= i < |q[j].txs|
      ensures q[j].txs[i] in now && now[q[j].txs[i]] == Entry(Of(q[j]), j, i)
    {
      assert InTxs(q, k, q[j].txs[i]);
    }
  }

  /** The number index up to the head of `path` is `path`; entries above may be stale. */
  ghost predicate IndexOk(canon: map<int, Hash>, path: seq<Block>) {
    forall i :: 0 <= i < |path| ==> i in canon && canon[i] == Of(path[i])
  }

  /** The chain's invariant: the tables hold a tree, and head, index and lookup table describe one best path. */
  ghost predicate ChainOk(g: Block, db: map<Key, Block>, tds: map<Key, nat>,
                          canon: map<int, Hash>, lookup: map<TxHash, Entry>, head: Block)
  {
    && StoreOk(g, db, tds)
    && head in db.Values
    && IndexOk(canon, Path(head, g))
    && (AllDistinct(g, db.Values) ==> LookupIs(lookup, Path(head, g)))
    && Heaviest(Tree(g, db.Values, head))
    && Lowest(Tree(g, db.Values, head))
  }

  lemma ChainOkStep(g: Block, db: map<Key, Block>, tds: map<Key, nat>, canon: map<int, Hash>,
                    lookup: map<TxHash, Entry>, head: Block, b: Block, coin: bool,
                    canon': map<int, Hash>, lookup': map<TxHash, Entry>, head': Block)
    requires ChainOk(g, db, tds, canon, lookup, head)
    requires Linked(Tree(g, db.Values, head), b) && Rooted(b, g)
    requires TreeOk(Tree(g, db.Values, head))
    requires head' == if BlockWins(Tree(g, db.Values, head), b, coin) then b else head
    requires IndexOk(canon', Path(head', g)) && Follows(lookup, Path(head, g), lookup', Path(head', g))
    ensures ChainOk(g, db[KeyOf(b) := b], tds[KeyOf(b) := TotalDifficulty(b, g)], canon', lookup', head')
    ensures Tree(g, db[KeyOf(b) := b].Values, head') == BlockStep(Tree(g, db.Values, head), b, coin)
  {
    StorePut(g, db, tds, b);
    BlockStepKeeps(Tree(g, db.Values, head), b, coin);
    if AllDistinct(g, db.Values + {b}) {
      assert PathDistinct(head, g) && PathDistinct(head', g);
      assert AllDistinct(g, db.Values);
    }
  }

  class BlockChain {
    const genesis: Block
    var blocks: map<Key, Block>          // header and body tables
    var tds: map<Key, nat>
    var canon: map<int, Hash>            // number to canonical hash
    var lookup: map<TxHash, Entry>       // transaction positions
    var currentBlock: Block
    var headBlockHash: Hash              // the persisted head marker
    var headHeader: Block                // head of the header chain
    var headFast: Block                  // head of fast sync
    var future: map<Hash, Block>         // blocks put off

    ghost function Contents(): Tree
      reads `blocks, `currentBlock
    {
      Tree(genesis, blocks.Values, currentBlock)
    }

    ghost predicate Valid()
      reads `blocks, `tds, `canon, `lookup, `currentBlock, `headBlockHash
    {
      ChainOk(genesis, blocks, tds, canon, lookup, currentBlock) && headBlockHash == Of(currentBlock)
    }

    constructor (g: Block)
      requires g.number == 0
      ensures Valid() && genesis == g && Contents() == Tree(g, {g}, g)
    {
      StoreGenesis(g);
      assert PathDistinct(g, g);
      genesis := g;
      blocks := map[KeyOf(g) := g];
      tds := map[KeyOf(g) := g.difficulty];
      canon := map[0 := Of(g)];
      lookup := map[];
      currentBlock, headBlockHash, headHeader, headFast, future := g, Of(g), g, g, map[];
    }

    /**
     Makes `block` the head and puts it in the number index.  The header and
     fast-sync heads follow only if the index held another hash at its number.
     */
    method Insert(block: Block)
      modifies this`canon, this`currentBlock, this`headBlockHash, this`headHeader, this`headFast
      ensures canon == old(canon)[block.number := Of(block)]
      ensures currentBlock == block && headBlockHash == Of(block)
      ensures headHeader == (if block.number in old(canon) &&
                old(canon)[block.number] == Of(block) then old(headHeader) else block)
      ensures headFast == (if block.number in old(canon) &&
                old(canon)[block.number] == Of(block) then old(headFast) else block)
    {
      var updateHeads := !(block.number in canon && canon[block.number] == Of(block));
      canon := canon[block.number := Of(block)];
      headBlockHash := Of(block);
      currentBlock := block;
      if updateHeads {
        headHeader := block;
        headFast := block;
      }
    }

    /** Writes the position of each of the block's transactions. */
    method WriteTxLookupEntries(block: Block)
      modifies this`lookup
      ensures WrittenOver(lookup, old(lookup), block)
    {
      var n := 0;
      while n < |block.txs|
        invariant 0 <= n <= |block.txs| && WrittenUpTo(lookup, old(lookup), block, n)
      {
        WriteOne(lookup, old(lookup), block, n);
        lookup := lookup[block.txs[n] := Entry(Of(block), block.number, n)];
        n := n + 1;
      }
    }

    /** Follows parent links down to the given number, collecting the blocks passed and their transactions. */
    method Reduce(head: Block, number: nat, ghost p: seq<Block>)
      returns (block: Option<Block>, chain: seq<Block>, txs: seq<TxHash>)
      requires TableOk(blocks) && Chained(p) && p[|p| - 1] == head && StoredIn(p[..|p| - 1], blocks)
      requires number < |p|
      ensures block == Some(p[number])
      ensures chain == TopDown(p, number) && txs == TxsDown(p, number)
    {
      block, chain, txs := Some(head), [], [];
      while block.Some? && block.value.number != number
        invariant block.Some? && number <= block.value.number < |p| && block.value == p[block.value.number]
        invariant chain == TopDown(p, block.value.number) && txs == TxsDown(p, block.value.number)
        decreases block.value.number
      {
        WalkStep(blocks, p, block.value.number);
        chain, txs := chain + [block.value], txs + block.value.txs;
        block := ParentIn(blocks, block.value);
      }
    }

    /**
     The walk of a reorg: the higher branch is reduced to the height of the
     lower, then both go down together until they meet.
     */
    method Walk(oldHead: Block, newHead: Block, ghost p: seq<Block>, ghost q: seq<Block>)
      returns (newChain: seq<Block>, deletedTxs: seq<TxHash>, commonBlock: Block, error: Option<ReorgError>)
      requires TableOk(blocks) && Chained(p) && Chained(q) && p[0] == q[0]
      requires p[|p| - 1] == oldHead && q[|q| - 1] == newHead
      requires StoredIn(p[..|p| - 1], blocks) && StoredIn(q[..|q| - 1], blocks)
      ensures error.None? && commonBlock == q[Fork(p, q)]
      ensures newChain == TopDown(q, Fork(p, q))
      ensures forall t :: t in deletedTxs <==> InTxs(p, Fork(p, q), t)
    {
      ghost var k := Fork(p, q);
      var oldBlock, newBlock := Some(oldHead), Some(newHead);
      var oldChain: seq<Block> := [];
      newChain, deletedTxs, commonBlock, error := [], [], oldHead, None;
      if oldHead.number > newHead.number {
        oldBlock, oldChain, deletedTxs := Reduce(oldHead, newHead.number, p);
      } else {
        var newTxs: seq<TxHash>;
        newBlock, newChain, newTxs := Reduce(newHead, oldHead.number, q);
      }
      if oldBlock.None? { return newChain, deletedTxs, commonBlock, Some(InvalidOldChain); }
      if newBlock.None? { return newChain, deletedTxs, commonBlock, Some(InvalidNewChain); }
      newChain, deletedTxs, commonBlock, error := Meet(oldBlock.value, newBlock.value, newChain, deletedTxs, p, q);
      forall t ensures t in deletedTxs <==> InTxs(p, k, t) {
        TxsDownMembers(p, k, t);
      }
    }

    /** Goes down both branches in step until they meet. */
    method Meet(old0: Block, new0: Block, chain0: seq<Block>, txs0: seq<TxHash>, ghost p: seq<Block>,
                ghost q: seq<Block>)
      returns (newChain: seq<Block>, deletedTxs: seq<TxHash>, commonBlock: Block, error: Option<ReorgError>)
      requires TableOk(blocks) && Chained(p) && Chained(q) && p[0] == q[0]
      requires StoredIn(p[..|p| - 1], blocks) && StoredIn(q[..|q| - 1], blocks)
      requires old0.number == new0.number && Fork(p, q) <= old0.number < |p| && old0.number < |q|
      requires old0 == p[old0.number] && new0 == q[old0.number]
      requires chain0 == TopDown(q, old0.number) && txs0 == TxsDown(p, old0.number)
      ensures error.None? && commonBlock == q[Fork(p, q)]
      ensures newChain == TopDown(q, Fork(p, q)) && deletedTxs == TxsDown(p, Fork(p, q))
    {
      var oldBlock, newBlock := Some(old0), Some(new0);
      newChain, deletedTxs, commonBlock, error := chain0, txs0, old0, None;
      ghost var k := old0.number;
      while true
        invariant Fork(p, q) <= k < |p| && k < |q| && error.None?
        invariant oldBlock == Some(p[k]) && newBlock == Some(q[k])
        invariant newChain == TopDown(q, k) && deletedTxs == TxsDown(p, k)
        decreases k
      {
        if Of(oldBlock.value) == Of(newBlock.value) {
          commonBlock := oldBlock.value;
          break;
        }
        WalkStep(blocks, p, k);
        WalkStep(blocks, q, k);
        newChain, deletedTxs := newChain + [newBlock.value], deletedTxs + oldBlock.value.txs;
        oldBlock, newBlock := ParentIn(blocks, oldBlock.value), ParentIn(blocks, newBlock.value);
        if oldBlock.None? { return newChain, deletedTxs, commonBlock, Some(InvalidOldChain); }
        if newBlock.None? { return newChain, deletedTxs, commonBlock, Some(InvalidNewChain); }
        k := k - 1;
      }
    }

    /** Inserts the new branch, highest block first, and writes its transaction positions. */
    method InsertBranch(newChain: seq<Block>, ghost q: seq<Block>, ghost k: nat)
      requires Chained(q) && k < |q| && newChain == TopDown(q, k)
      modifies this`canon, this`currentBlock, this`headBlockHash, this`headHeader, this`headFast, this`lookup
      ensures BranchIn(q, k, old(canon), old(lookup))
    {
      ghost var n := |q| - 1;
      assert BranchIn(q, n, canon, lookup);
      var m := 0;
      while m < |newChain|
        invariant 0 <= m <= |newChain| && n == |q| - 1 - m && BranchIn(q, n, old(canon), old(lookup))
      {
        TopDownAt(q, k, m);
        InsertOne(newChain[m], q, n, old(canon), old(lookup));
        n, m := n - 1, m + 1;
      }
    }

    /** The blocks of `q` above `n` have been inserted over an index and a lookup table. */
    ghost predicate BranchIn(q: seq<Block>, n: nat, canon0: map<int, Hash>, lookup0: map<TxHash, Entry>)
      reads this
    {
      && IndexOver(canon, canon0, q, n) && SameElsewhere(lookup, lookup0, q, n)
      && (DistinctTxs(q) ==> Located(lookup, q, n))
      && (n + 1 < |q| && !HasAt(canon0, q[n + 1]) ==> headHeader == headFast == q[n + 1])
    }

    method InsertOne(block: Block, ghost q: seq<Block>, ghost n: nat, ghost canon0: map<int, Hash>,
                     ghost lookup0: map<TxHash, Entry>)
      requires Chained(q) && 0 < n < |q| && block == q[n] && BranchIn(q, n, canon0, lookup0)
      modifies this`canon, this`currentBlock, this`headBlockHash, this`headHeader, this`headFast, this`lookup
      ensures BranchIn(q, n - 1, canon0, lookup0)
    {
      Insert(block);
      ghost var was := lookup;
      WriteTxLookupEntries(block);
      ElsewhereStep(lookup0, was, lookup, q, n);
      if DistinctTxs(q) {
        LocatedStep(was, lookup, q, n);
      }
    }

    /**
     Makes the path of `newHead` canonical instead of the path of `oldHead`:
     every number entry and every transaction position is that of the new path.
     The walk never fails, because every ancestor is stored.
     */
    method Reorg(oldHead: Block, newHead: Block, ghost p: seq<Block>, ghost q: seq<Block>)
      returns (error: Option<ReorgError>, commonBlock: Block)
      requires TableOk(blocks) && Chained(p) && Chained(q) && p[0] == q[0]
      requires p[|p| - 1] == oldHead && q[|q| - 1] == newHead
      requires StoredIn(p[..|p| - 1], blocks) && StoredIn(q[..|q| - 1], blocks)
      requires IndexOk(canon, p)
      modifies this`canon, this`currentBlock, this`headBlockHash, this`headHeader, this`headFast, this`lookup
      ensures error.None?
      ensures LastCommon(blocks, oldHead, newHead, commonBlock) && commonBlock == q[Fork(p, q)]
      ensures IndexOk(canon, q) && Follows(old(lookup), p, lookup, q)
      ensures Fork(p, q) + 1 < |p| && Fork(p, q) + 1 < |q| ==> headHeader == headFast == q[Fork(p, q) + 1]
    {
      ghost var k := Fork(p, q);
      ChainsAgreeBelow(p, q, k);
      ForkIsLastCommon(blocks, p, q);
      var newChain, deletedTxs;
      newChain, deletedTxs, commonBlock, error := Walk(oldHead, newHead, p, q);
      if error.Some? { return; }
      InsertBranch(newChain, q, k);
      DeleteOld(newChain, deletedTxs, p, q, k, old(lookup));
    }

    /** Deletes the entries of the old branch's transactions that the new branch does not have. */
    method DeleteOld(newChain: seq<Block>, deletedTxs: seq<TxHash>, ghost p: seq<Block>, ghost q: seq<Block>,
                     ghost k: nat, ghost before: map<TxHash, Entry>)
      requires Chained(q) && k < |p| && k < |q| && newChain == TopDown(q, k) && forall i :: 0 <= i <= k ==> p[i] == q[i]
      requires forall t :: t in deletedTxs <==> InTxs(p, k, t)
      requires (DistinctTxs(q) ==> Located(lookup, q, k)) && SameElsewhere(lookup, before, q, k)
      modifies this`lookup
      ensures Follows(before, p, lookup, q)
    {
      var addedTxs := AddedTxs(newChain, q, k);
      ghost var written := lookup;
      DeleteEntries(TxDifference(deletedTxs, addedTxs));
      if DistinctTxs(p) && DistinctTxs(q) && LookupIs(before, p) {
        DeletionKeeps(written, lookup, p, q, k);
        LookupAfterReorg(before, lookup, p, q, k);
      }
    }

    method DeleteEntries(diff: seq<TxHash>)
      modifies this`lookup
      ensures forall t :: t in lookup <==> t in old(lookup) && t !in diff
      ensures forall t :: t in lookup ==> lookup[t] == old(lookup)[t]
    {
      var i := 0;
      while i < |diff|
        invariant 0 <= i <= |diff|
        invariant forall t :: t in lookup <==> t in old(lookup) && t !in diff[..i]
        invariant forall t :: t in lookup ==> lookup[t] == old(lookup)[t]
      {
        assert diff[..i + 1] == diff[..i] + [diff[i]];
        lookup := lookup - {diff[i]};
        i := i + 1;
      }
      assert diff[..|diff|] == diff;
    }

    /** The transactions of the inserted branch, gathered in insertion order. */
    method AddedTxs(newChain: seq<Block>, ghost q: seq<Block>, ghost k: nat) returns (txs: seq<TxHash>)
      requires Chained(q) && k < |q| && newChain == TopDown(q, k)
      ensures forall t :: t in txs <==> InTxs(q, k, t)
    {
      txs := [];
      ghost var n := |q| - 1;
      var m := 0;
      while m < |newChain|
        invariant 0 <= m <= |newChain|
        invariant n == |q| - 1 - m && txs == TxsDown(q, n)
      {
        TopDownAt(q, k, m);
        txs := txs + newChain[m].txs;
        n := n - 1;
        m := m + 1;
      }
      forall t ensures t in txs <==> InTxs(q, k, t) {
        TxsDownMembers(q, k, t);
      }
    }

    /**
     Writes a block whose parent is known.  The total difficulty is stored at
     once; the block itself goes into a batch that is applied after the reorg.
     A reorg never fails; afterwards the head, the number index up to it and the
     transaction lookup table describe one path, that of the fork-choice winner.
     */
    method WriteBlockAndState(block: Block, coin: bool) returns (r: BlockResult)
      requires Valid()
      modifies this
      ensures Valid()
      ensures Contents() == BlockStep(old(Contents()), block, coin)
      ensures r == (if !Linked(old(Contents()), block) then NoAncestor
                    else if BlockWins(old(Contents()), block, coin) then Done(CanonStat) else Done(SideStat))
      ensures r == Done(CanonStat) && block.parent != Of(old(currentBlock)) ==>
                HeaderHeadAfterReorg(old(currentBlock), block)
      ensures future == if r.NoAncestor? then old(future) else old(future) - {Of(block)}
    {
      ghost var t0, tds0, canon0, lookup0, db0 := Contents(), tds, canon, lookup, blocks;
      ParentLookup(genesis, blocks, tds, currentBlock, block);
      if (block.parent, block.number - 1) !in tds {
        return NoAncestor;
      }
      LinkedIsRooted(t0, block);
      ghost var p, q := ForkPaths(block);
      r := WriteLinked(block, coin, p, q);
      ChainOkStep(genesis, db0, tds0, canon0, lookup0, t0.head, block, coin, canon, lookup, currentBlock);
    }

    method WriteLinked(block: Block, coin: bool, ghost p: seq<Block>, ghost q: seq<Block>) returns (r: BlockResult)
      requires StoreOk(genesis, blocks, tds) && currentBlock in blocks.Values && TreeOk(Contents())
      requires Linked(Contents(), block) && Rooted(block, genesis)
      requires Chained(p) && Chained(q) && p[0] == q[0]
      requires p[|p| - 1] == currentBlock && q[|q| - 1] == block && 1 < |q|
      requires StoredIn(p[..|p| - 1], blocks) && StoredIn(q[..|q| - 1], blocks)
      requires IndexOk(canon, p) && headBlockHash == Of(currentBlock)
      modifies this
      ensures tds == old(tds)[KeyOf(block) := TotalDifficulty(block, genesis)]
      ensures blocks == old(blocks)[KeyOf(block) := block] && headBlockHash == Of(currentBlock)
      ensures r == Done(if BlockWins(old(Contents()), block, coin) then CanonStat else SideStat)
      ensures BlockWins(old(Contents()), block, coin) ==>
                currentBlock == block && IndexOk(canon, q) && Follows(old(lookup), p, lookup, q)
      ensures !BlockWins(old(Contents()), block, coin) ==>
                currentBlock == old(currentBlock) && canon == old(canon) && lookup == old(lookup)
      ensures r == Done(CanonStat) && block.parent != Of(old(currentBlock)) ==> LowestNewBlock(p, q)
      ensures future == old(future) - {Of(block)}
    {
      var reorg := WriteTd(block, coin);
      if reorg {
        r := Canonicalise(block, p, q);
        if r.ReorgFailed? { return; }
      } else {
        r := Done(SideStat);
        blocks := blocks[KeyOf(block) := block];
      }
      future := future - {Of(block)};
    }

    /** Stores the total difficulty and decides whether the block becomes the head. */
    method WriteTd(block: Block, coin: bool) returns (reorg: bool)
      requires StoreOk(genesis, blocks, tds) && currentBlock in blocks.Values && TreeOk(Contents())
      requires Linked(Contents(), block) && Rooted(block, genesis)
      modifies this`tds
      ensures reorg == BlockWins(Contents(), block, coin)
      ensures tds == old(tds)[KeyOf(block) := TotalDifficulty(block, genesis)]
    {
      ParentLookup(genesis, blocks, tds, currentBlock, block);
      LinkedIsRooted(Contents(), block);
      StoredKey(blocks, currentBlock);
      var localTd := tds[KeyOf(currentBlock)];
      var externTd := block.difficulty + tds[(block.parent, block.number - 1)];
      tds := tds[KeyOf(block) := externTd];
      reorg := externTd > localTd;
      if !reorg && externTd == localTd {
        reorg := block.number < currentBlock.number || (block.number == currentBlock.number && coin);
      }
    }

    /** The paths of the head and of a block about to be written, with all that a reorg relies on. */
    lemma ForkPaths(block: Block) returns (p: seq<Block>, q: seq<Block>)
      requires StoreOk(genesis, blocks, tds) && currentBlock in blocks.Values
      requires Linked(Contents(), block) && Rooted(block, genesis)
      ensures p == Path(currentBlock, genesis) && q == Path(block, genesis)
      ensures Chained(p) && Chained(q) && 1 < |q| && p[0] == q[0] && q[|q| - 1] == block
      ensures StoredIn(p[..|p| - 1], blocks) && StoredIn(q[..|q| - 1], blocks)
    {
      p, q := Path(currentBlock, genesis), Path(block, genesis);
      PathStored(genesis, blocks, tds, currentBlock);
      PathStored(genesis, blocks, tds, block.parent.block);
      PathChained(block, genesis);
      StoredPrefix(blocks, p, |p| - 1);
      LinkedIsRooted(Contents(), block);
      assert q[..|q| - 1] == Path(block.parent.block, genesis);
    }

    /** Where the header head is left by a reorg: on the lowest block of the new branch, not on its tip. */
    ghost predicate HeaderHeadAfterReorg(oldHead: Block, newHead: Block)
      reads `headHeader, `headFast
      requires genesis.number == 0 && Rooted(oldHead, genesis) && Rooted(newHead, genesis)
    {
      PathChained(oldHead, genesis);
      PathChained(newHead, genesis);
      LowestNewBlock(Path(oldHead, genesis), Path(newHead, genesis))
    }

    ghost predicate LowestNewBlock(p: seq<Block>, q: seq<Block>)
      reads `headHeader, `headFast
      requires Chained(p) && Chained(q) && p[0] == q[0]
    {
      var k := Fork(p, q);
      k + 1 < |p| && k + 1 < |q| ==> headHeader == headFast == q[k + 1]
    }

    /** The branch taken when the block becomes the head: reorg if needed, apply the batch, insert. */
    method Canonicalise(block: Block, ghost p: seq<Block>, ghost q: seq<Block>) returns (r: BlockResult)
      requires TableOk(blocks) && Chained(p) && Chained(q) && p[0] == q[0]
      requires p[|p| - 1] == currentBlock && q[|q| - 1] == block && 1 < |q|
      requires StoredIn(p[..|p| - 1], blocks) && StoredIn(q[..|q| - 1], blocks)
      requires IndexOk(canon, p)
      modifies this
      ensures tds == old(tds) && blocks == old(blocks)[KeyOf(block) := block]
      ensures r == Done(CanonStat) && currentBlock == block && headBlockHash == Of(block)
      ensures IndexOk(canon, q) && Follows(old(lookup), p, lookup, q)
      ensures block.parent != Of(old(currentBlock)) ==> LowestNewBlock(p, q)
      ensures future == old(future)
    {
      if block.parent != Of(currentBlock) {
        var error, commonBlock := Reorg(currentBlock, block, p, q);
        if error.Some? {
          return ReorgFailed(error);
        }
        Rewrite(block, q);
      } else {
        Extend(block, p, q);
      }
      blocks := blocks[KeyOf(block) := block];
      Insert(block);
      r := Done(CanonStat);
    }

    /** Writing positions that are already there changes nothing. */
    method Rewrite(block: Block, ghost q: seq<Block>)
      requires Chained(q) && 1 < |q| && q[|q| - 1] == block
      modifies this`lookup
      ensures DistinctTxs(q) && LookupIs(old(lookup), q) ==> lookup == old(lookup)
    {
      ghost var n := |q| - 1;
      WriteTxLookupEntries(block);
      if DistinctTxs(q) && LookupIs(old(lookup), q) {
        assert Located(old(lookup), q, n);
        LocatedStep(old(lookup), lookup, q, n);
        forall t | t !in block.txs
          ensures (t in lookup <==> t in old(lookup)) && (t in lookup ==> lookup[t] == old(lookup)[t])
        {
          WrittenElsewhere(lookup, old(lookup), block, t);
        }
      }
    }

    /** Writing the positions of a child of the head extends the table to its path. */
    method Extend(block: Block, ghost p: seq<Block>, ghost q: seq<Block>)
      requires Chained(p) && Chained(q) && p[0] == q[0]
      requires 1 < |q| && q[|q| - 1] == block && block.parent == Of(p[|p| - 1])
      modifies this`lookup
      ensures Follows(old(lookup), p, lookup, q)
      ensures |q| == |p| + 1 && forall i :: 0 <= i < |p| ==> q[i] == p[i]
    {
      ghost var n := |q| - 1;
      assert LinkAt(q, n) && q[n - 1] == p[|p| - 1];
      ChainsAgreeBelow(p, q, n - 1);
      WriteTxLookupEntries(block);
      if DistinctTxs(p) && DistinctTxs(q) && LookupIs(old(lookup), p) {
        LocatedStep(old(lookup), lookup, q, n);
        forall t | !InTxs(q, n - 1, t)
          ensures t !in block.txs && (t in lookup <==> t in old(lookup))
          ensures t in lookup ==> lookup[t] == old(lookup)[t]
        {
          assert t !in q[n].txs;
          WrittenElsewhere(lookup, old(lookup), block, t);
        }
        LookupAfterReorg(old(lookup), lookup, p, q, n - 1);
      }
    }

    /**
     Imports a batch, whatever verification finds and whatever the tie-breaks.  It is
     refused as a whole exactly if it is not one chain.  Of the blocks it gets to, one
     is stored exactly if it was before or passes all checks and its parent is stored,
     every other one is put off, and nothing else is; it stops early for an
     interruption or for the reason given only.  Stored blocks and head are those of
     the fork-choice run over the blocks newly stored, in order.  A batch that passes
     all checks and builds on a stored block is stored whole.
     */
    method InsertChain(chain: seq<Block>, checks: seq<Check>)
      returns (n: nat, err: Option<InsertError>, ghost done: nat, ghost picked: seq<nat>)
      requires Valid() && |checks| == |chain|
      modifies this
      ensures Valid() && done <= |chain| && n == if err.Some? then done else 0
      ensures err == Some(NonContiguous) <==> !Ordered(chain)
      ensures err == Some(NonContiguous) ==> done == 0
      ensures Imported(old(Contents()), old(future), Contents(), future, chain, checks, done)
      ensures Picks(old(Contents()), Contents(), chain, done, picked)
      ensures BlockRan(old(Contents()), Writes(chain, checks, picked), Contents())
      ensures err.None? ==> done == |chain| || checks[done].interrupted
      ensures err.Some? && Ordered(chain) ==> done < |chain| && Refused(chain[done], checks[done], err.value)
      ensures Ordered(chain) && AllPass(checks) && (chain == [] || Linked(old(Contents()), chain[0])) ==>
                err.None? && forall b :: b in chain ==> b in Contents().stored
    {
      ghost var t, f := Contents(), future;
      NothingImported(t, f, chain, checks);
      n, err, done, picked := 0, None, 0, [];
      var ordered := CheckOrder(chain);
      if !ordered {
        return 0, Some(NonContiguous), 0, [];
      }
      var m;
      m, err, picked := InsertAll(chain, checks, t, f);
      n, done := if err.Some? then m else 0, m;
      if AllPass(checks) && (chain == [] || Linked(t, chain[0])) {
        WholeBatch(t, f, Contents(), future, chain, checks, done);
      }
    }

    /** Why a block is not taken in, with the chain as it is. */
    ghost predicate Refused(block: Block, check: Check, e: InsertError)
      reads this
    {
      var j := Judge(block in Contents().stored, KnownParent(Contents().stored, block), block.parent in future, check);
      !check.interrupted && (j == Stop(e) || (j.Process? && !Linked(Contents(), block) && e == Orphan))
    }

    /** How the import of a batch stands after its first `n` blocks. */
    ghost predicate Inserting(t: Tree, f: map<Hash, Block>, chain: seq<Block>, checks: seq<Check>, n: nat,
                              picked: seq<nat>)
      requires n <= |chain| == |checks|
      reads this
    {
      && Valid() && t.genesis == genesis && Imported(t, f, Contents(), future, chain, checks, n)
      && Picks(t, Contents(), chain, n, picked) && BlockRan(t, Writes(chain, checks, picked), Contents())
    }

    /** The import loop. */
    method InsertAll(chain: seq<Block>, checks: seq<Check>, ghost t: Tree, ghost f: map<Hash, Block>)
      returns (n: nat, err: Option<InsertError>, ghost picked: seq<nat>)
      requires |checks| == |chain| && Ordered(chain) && Inserting(t, f, chain, checks, 0, [])
      modifies this
      ensures n <= |chain| && Inserting(t, f, chain, checks, n, picked) && err != Some(NonContiguous)
      ensures err.None? ==> n == |chain| || checks[n].interrupted
      ensures err.Some? ==> n < |chain| && Refused(chain[n], checks[n], err.value)
    {
      n, err, picked := 0, None, [];
      while n < |chain| && err.None? && !checks[n].interrupted
        invariant n <= |chain| && Inserting(t, f, chain, checks, n, picked) && err != Some(NonContiguous)
        invariant err.Some? ==> n < |chain| && Refused(chain[n], checks[n], err.value)
        decreases |chain| - n, err.None?
      {
        err, picked := InsertNext(chain, checks, n, t, f, picked);
        n := if err.Some? then n else n + 1;
      }
    }

    /** Takes in the next block: skipped if known, put off, written, or refused. */
    method InsertNext(chain: seq<Block>, checks: seq<Check>, n: nat, ghost t: Tree, ghost f: map<Hash, Block>,
                      ghost picked0: seq<nat>)
      returns (err: Option<InsertError>, ghost picked: seq<nat>)
      requires n < |chain| == |checks| && Ordered(chain) && Inserting(t, f, chain, checks, n, picked0)
      requires !checks[n].interrupted
      modifies this
      ensures Inserting(t, f, chain, checks, if err.Some? then n else n + 1, picked) && err != Some(NonContiguous)
      ensures err.Some? ==> Refused(chain[n], checks[n], err.value)
    {
      err, picked := None, picked0;
      var judgement := Assess(chain[n], checks[n]);
      match judgement
      case Stop(e) => err := Some(e);
      case Skip =>
        ImportedSame(t, f, Contents(), future, future, chain, checks, n);
        PicksSame(t, Contents(), chain, n, picked);
      case Queue =>
        PutOff(chain, checks, n, t, f, picked);
      case Process =>
        err, picked := WriteNext(chain, checks, n, t, f, picked);
    }

    /** What to do with a block as the chain is now. */
    method Assess(block: Block, check: Check) returns (judgement: Judgement)
      requires Valid()
      ensures judgement == Judge(block in Contents().stored, KnownParent(Contents().stored, block),
                                 block.parent in future, check)
    {
      StoredKey(blocks, block);
      if block.parent.Of? {
        StoredKey(blocks, block.parent.block);
      }
      var parentKnown := block.parent.Of? && KeyOf(block.parent.block) in blocks;
      judgement := Judge(KeyOf(block) in blocks, parentKnown, block.parent in future, check);
    }

    method PutOff(chain: seq<Block>, ghost checks: seq<Check>, n: nat, ghost t: Tree, ghost f: map<Hash, Block>,
                  ghost picked: seq<nat>)
      requires n < |chain| == |checks| && Ordered(chain) && Inserting(t, f, chain, checks, n, picked)
      requires chain[n] in Contents().stored || !Passes(checks[n]) || !Linked(Contents(), chain[n])
      modifies this`future
      ensures Inserting(t, f, chain, checks, n + 1, picked)
    {
      ghost var u, was := Contents(), future;
      future := future[Of(chain[n]) := chain[n]];
      ImportedSame(t, f, u, was, future, chain, checks, n);
      PicksSame(t, u, chain, n, picked);
    }

    method WriteNext(chain: seq<Block>, checks: seq<Check>, n: nat, ghost t: Tree, ghost f: map<Hash, Block>,
                     ghost picked0: seq<nat>)
      returns (err: Option<InsertError>, ghost picked: seq<nat>)
      requires n < |chain| == |checks| && Ordered(chain) && Inserting(t, f, chain, checks, n, picked0)
      requires chain[n] !in Contents().stored && Passes(checks[n])
      modifies this
      ensures err.None? ==> Inserting(t, f, chain, checks, n + 1, picked)
      ensures err.Some? ==> err == Some(Orphan) && !Linked(Contents(), chain[n])
      ensures err.Some? ==> Inserting(t, f, chain, checks, n, picked)
      ensures err.Some? ==> Contents() == old(Contents()) && future == old(future)
    {
      ghost var u, was := Contents(), future;
      var r := WriteBlockAndState(chain[n], checks[n].coin);
      if r.NoAncestor? {
        return Some(Orphan), picked0;
      }
      err, picked := None, picked0 + [n];
      ImportedMore(t, f, u, was, Contents(), future, chain, checks, n);
      PicksMore(t, u, Contents(), chain, n, picked0);
      BlockRanOne(t, Writes(chain, checks, picked0), u, chain[n], checks[n].coin);
      WritesMore(chain, checks, picked0, n);
    }
  }

  /** Checks that a batch is one chain. */
  method CheckOrder(chain: seq<Block>) returns (ordered: bool)
    ensures ordered == Ordered(chain)
  {
    var i := 1;
    while i < |chain|
      invariant 1 <= i && forall j :: 0 < j < i && j < |chain| ==> Succeeds(chain, j)
    {
      if chain[i].number != chain[i - 1].number + 1 || chain[i].parent != Of(chain[i - 1]) {
        assert !Succeeds(chain, i);
        return false;
      }
      i := i + 1;
    }
    return true;
  }

  /** A run of block writes leads from one tree to the other. */
  ghost predicate BlockRan(t: Tree, ws: seq<Write>, u: Tree) {
    TreeOk(t) && Heaviest(t) && Lowest(t) && u == BlockRun(t, ws)
  }

  lemma NoBlocksRan(t: Tree)
    requires TreeOk(t) && Heaviest(t) && Lowest(t)
    ensures BlockRan(t, [], t)
  {
  }

  lemma BlockRanOne(t: Tree, ws: seq<Write>, u: Tree, b: Block, coin: bool)
    requires BlockRan(t, ws, u)
    ensures BlockRan(t, ws + [(b, coin)], BlockStep(u, b, coin))
  {
    assert (ws + [(b, coin)])[..|ws|] == ws;
  }

  // ---------------------------------------------------------------------------
  // Batches
  // ---------------------------------------------------------------------------

  /** What verification says of a header. */
  datatype HeaderCheck = Fine | Unlinked | Ahead(tooFar: bool) | Bad

  /** What is found of a block on its turn; `sound` covers its body, its execution and the state that results. */
  datatype Check = Check(header: HeaderCheck, sound: bool, banned: bool, interrupted: bool, coin: bool)

  datatype InsertError = NonContiguous | Blacklisted | FutureBlock | Orphan | InvalidBlock

  datatype Judgement = Skip | Queue | Process | Stop(error: InsertError)

  /** What to do with a block, from whether it and its parent are known and whether its parent was put off. */
  function Judge(known: bool, parentKnown: bool, parentWaits: bool, check: Check): Judgement {
    if check.banned then Stop(Blacklisted) else
      match check.header
      case Fine =>
        if known then Skip
        else if !parentKnown then Orphaned(parentWaits)
        else if check.sound then Process
        else Stop(InvalidBlock)
      case Unlinked => Orphaned(parentWaits)
      case Ahead(tooFar) => if tooFar then Stop(FutureBlock) else Queue
      case Bad => Stop(InvalidBlock)
  }

  function Orphaned(parentWaits: bool): Judgement {
    if parentWaits then Queue else Stop(Orphan)
  }

  ghost predicate Passes(c: Check) {
    c.header.Fine? && c.sound && !c.banned
  }

  ghost predicate AllPass(checks: seq<Check>) {
    forall i :: 0 <= i < |checks| ==> Passes(checks[i]) && !checks[i].interrupted
  }

  predicate KnownParent(stored: set<Block>, b: Block) {
    b.parent.Of? && b.parent.block in stored
  }

  ghost predicate Succeeds(chain: seq<Block>, i: int)
    requires 0 < i < |chain|
  {
    chain[i].number == chain[i - 1].number + 1 && chain[i].parent == Of(chain[i - 1])
  }

  /** The batch is one chain. */
  ghost predicate Ordered(chain: seq<Block>) {
    forall i {:trigger Succeeds(chain, i)} :: 0 < i < |chain| ==> Succeeds(chain, i)
  }

  lemma {:induction false} OrderedNumbers(chain: seq<Block>, i: nat, j: nat)
    requires Ordered(chain) && i <= j < |chain|
    ensures chain[j].number == chain[i].number + (j - i)
    decreases j
  {
    if i < j {
      assert Succeeds(chain, j);
      OrderedNumbers(chain, i, j - 1);
    }
  }

  /** Where a block of the batch ended up: in the tree `u`, or put off. */
  ghost predicate ImportedAt(t: Tree, u: Tree, future: map<Hash, Block>, chain: seq<Block>, checks: seq<Check>, i: int)
    requires 0 <= i < |chain| == |checks|
  {
    && (chain[i] in u.stored <==> chain[i] in t.stored || (Passes(checks[i]) && Linked(u, chain[i])))
    && (chain[i] !in u.stored ==> Of(chain[i]) in future && future[Of(chain[i])] == chain[i])
    && (chain[i] in u.stored && chain[i] !in t.stored ==> Of(chain[i]) !in future)
  }

  /** The first `n` blocks of a batch are where they belong, and nothing else has changed. */
  ghost predicate Imported(t: Tree, f: map<Hash, Block>, u: Tree, future: map<Hash, Block>, chain: seq<Block>,
                           checks: seq<Check>, n: nat)
    requires n <= |chain| == |checks|
  {
    && (forall i {:trigger ImportedAt(t, u, future, chain, checks, i)} :: 0 <= i < n ==>
          ImportedAt(t, u, future, chain, checks, i))
    && t.stored <= u.stored
    && (forall b {:trigger StoredFrom(t, u, chain, n, b)} :: StoredFrom(t, u, chain, n, b))
    && (forall h {:trigger KeptOff(f, future, chain, n, h)} :: KeptOff(f, future, chain, n, h))
  }

  /** A block in `u` was in `t` or is one of the first `n` of the batch. */
  ghost predicate StoredFrom(t: Tree, u: Tree, chain: seq<Block>, n: nat, b: Block)
    requires n <= |chain|
  {
    b in u.stored ==> b in t.stored || b in chain[..n]
  }

  /** What was put off before and is not one of the first `n` of the batch still is, and no other such block is. */
  ghost predicate KeptOff(f: map<Hash, Block>, future: map<Hash, Block>, chain: seq<Block>, n: nat, h: Hash)
    requires n <= |chain|
  {
    (h.Of? ==> h.block !in chain[..n]) ==> (h in future <==> h in f) && (h in future ==> future[h] == f[h])
  }

  lemma NothingImported(t: Tree, f: map<Hash, Block>, chain: seq<Block>, checks: seq<Check>)
    requires |chain| == |checks| && TreeOk(t) && Heaviest(t) && Lowest(t)
    ensures Imported(t, f, t, f, chain, checks, 0) && Picks(t, t, chain, 0, [])
    ensures BlockRan(t, Writes(chain, checks, []), t)
  {
  }

  /** A block skipped or put off. */
  lemma ImportedSame(t: Tree, f: map<Hash, Block>, u: Tree, was: map<Hash, Block>, now: map<Hash, Block>,
                     chain: seq<Block>, checks: seq<Check>, n: nat)
    requires n < |chain| == |checks| && Ordered(chain) && Imported(t, f, u, was, chain, checks, n)
    requires now == was[Of(chain[n]) := chain[n]] || (now == was && chain[n] in u.stored)
    requires chain[n] in u.stored || !Passes(checks[n]) || !Linked(u, chain[n])
    ensures Imported(t, f, u, now, chain, checks, n + 1) && (chain[n] in u.stored ==> chain[n] in t.stored)
  {
    var m := n + 1;
    assert chain[..m] == chain[..n] + [chain[n]];
    NewInBatch(chain, n);
    assert StoredFrom(t, u, chain, n, chain[n]);
    forall i | 0 <= i < n + 1 ensures ImportedAt(t, u, now, chain, checks, i) {
      if i < n {
        assert ImportedAt(t, u, was, chain, checks, i);
      }
    }
    forall h ensures KeptOff(f, now, chain, m, h) { assert KeptOff(f, was, chain, n, h); }
    forall b ensures StoredFrom(t, u, chain, m, b) { assert StoredFrom(t, u, chain, n, b); }
  }

  /** A block differs from those before it in the batch, and is the parent of none of them. */
  lemma NewInBatch(chain: seq<Block>, n: nat)
    requires n < |chain| && Ordered(chain)
    ensures chain[n] !in chain[..n]
    ensures forall i :: 0 <= i < n ==> chain[i].number < chain[n].number
  {
    forall i | 0 <= i < n ensures chain[i].number < chain[n].number {
      OrderedNumbers(chain, i, n);
    }
  }

  /** A block written. */
  lemma ImportedMore(t: Tree, f: map<Hash, Block>, u: Tree, was: map<Hash, Block>, v: Tree, now: map<Hash, Block>,
                     chain: seq<Block>, checks: seq<Check>, n: nat)
    requires n < |chain| == |checks| && Ordered(chain) && Imported(t, f, u, was, chain, checks, n)
    requires v.stored == u.stored + {chain[n]} && now == was - {Of(chain[n])}
    requires chain[n] !in u.stored && Passes(checks[n]) && Linked(u, chain[n])
    ensures Imported(t, f, v, now, chain, checks, n + 1)
  {
    var m := n + 1;
    assert chain[..m] == chain[..n] + [chain[n]];
    NewInBatch(chain, n);
    forall i | 0 <= i < n + 1 ensures ImportedAt(t, v, now, chain, checks, i) {
      if i < n {
        assert ImportedAt(t, u, was, chain, checks, i);
        assert Linked(v, chain[i]) <==> Linked(u, chain[i]);
      }
    }
    forall h ensures KeptOff(f, now, chain, m, h) { assert KeptOff(f, was, chain, n, h); }
    forall b ensures StoredFrom(t, v, chain, m, b) { assert StoredFrom(t, u, chain, n, b); }
  }

  /** The blocks newly stored are those at the picked places, in order. */
  ghost predicate Picks(t: Tree, u: Tree, chain: seq<Block>, n: nat, picked: seq<nat>)
    requires n <= |chain|
  {
    && Below(picked, n) && (forall k, l :: 0 <= k < l < |picked| ==> picked[k] < picked[l])
    && forall i {:trigger PickedAt(t, u, chain, picked, i)} :: 0 <= i < n ==> PickedAt(t, u, chain, picked, i)
  }

  ghost predicate PickedAt(t: Tree, u: Tree, chain: seq<Block>, picked: seq<nat>, i: nat)
    requires i < |chain|
  {
    i in picked <==> chain[i] in u.stored && chain[i] !in t.stored
  }

  lemma PicksSame(t: Tree, u: Tree, chain: seq<Block>, n: nat, picked: seq<nat>)
    requires n < |chain| && Picks(t, u, chain, n, picked) && (chain[n] in u.stored ==> chain[n] in t.stored)
    ensures Picks(t, u, chain, n + 1, picked)
  {
    forall i | 0 <= i < n + 1 ensures PickedAt(t, u, chain, picked, i) {
      assert i < n ==> PickedAt(t, u, chain, picked, i);
    }
  }

  lemma PicksMore(t: Tree, u: Tree, v: Tree, chain: seq<Block>, n: nat, picked: seq<nat>)
    requires n < |chain| && Ordered(chain) && Picks(t, u, chain, n, picked)
    requires v.stored == u.stored + {chain[n]} && chain[n] !in u.stored && t.stored <= u.stored
    ensures Picks(t, v, chain, n + 1, picked + [n])
  {
    NewInBatch(chain, n);
    var more := picked + [n];
    forall i | 0 <= i < n + 1 ensures PickedAt(t, v, chain, more, i) {
      assert i in more <==> i in picked || i == n;
      assert i < n ==> PickedAt(t, u, chain, picked, i);
    }
  }

  /** A batch that passes all checks and builds on a stored block gets through. */
  lemma {:induction false} WholeBatch(t: Tree, f: map<Hash, Block>, u: Tree, future: map<Hash, Block>,
                                      chain: seq<Block>, checks: seq<Check>, n: nat)
    requires n <= |chain| == |checks| && Ordered(chain) && Imported(t, f, u, future, chain, checks, n)
    requires AllPass(checks) && (chain == [] || Linked(t, chain[0]))
    ensures forall i :: 0 <= i < n ==> chain[i] in u.stored
    ensures n < |chain| ==> Linked(u, chain[n])
  {
    var i := 0;
    while i < n
      invariant 0 <= i <= n && forall j :: 0 <= j < i ==> chain[j] in u.stored
      invariant i < |chain| ==> Linked(u, chain[i])
    {
      assert ImportedAt(t, u, future, chain, checks, i);
      i := i + 1;
      if i < |chain| {
        assert Succeeds(chain, i);
      }
    }
  }

  /** The blocks at these places of a batch with their tie-breaks. */
  ghost function Writes(chain: seq<Block>, checks: seq<Check>, picked: seq<nat>): seq<Write>
    requires |chain| == |checks| && Below(picked, |chain|)
  {
    seq(|picked|, k requires 0 <= k < |picked| => (chain[picked[k]], checks[picked[k]].coin))
  }

  ghost predicate Below(picked: seq<nat>, n: nat) {
    forall k :: 0 <= k < |picked| ==> picked[k] < n
  }

  lemma WritesMore(chain: seq<Block>, checks: seq<Check>, picked: seq<nat>, n: nat)
    requires n < |chain| == |checks| && Below(picked, |chain|)
    ensures Below(picked + [n], |chain|)
    ensures Writes(chain, checks, picked + [n]) == Writes(chain, checks, picked) + [(chain[n], checks[n].coin)]
  {
  }
}
