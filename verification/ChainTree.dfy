/**
 The tree of headers and blocks that every chain component works on.

 A hash is an injective identifier: `Of(b)` is the hash of `b` and of nothing
 else, so a parent link names exactly one block.  `Junk` is any 32-byte value
 that is not the hash of a block, and `Zero` the all-zero value that the
 database readers return for "absent".
 */
module ChainTree {

  type TxHash = nat

  datatype Hash = Zero | Junk(id: nat) | Of(block: Block)

  datatype Block = Block(parent: Hash, number: nat, difficulty: nat, txs: seq<TxHash>, seal: nat)

  /** A database key: the tables are keyed by hash and number together. */
  type Key = (Hash, int)

  function KeyOf(b: Block): Key {
    (Of(b), b.number)
  }

  /** A table stores a block only under its own hash and number. */
  ghost predicate TableOk(db: map<Key, Block>) {
    forall k :: k in db ==> k == KeyOf(db[k])
  }

  // ---------------------------------------------------------------------------
  // Lineage
  // ---------------------------------------------------------------------------

  /** `b` descends from `g` through links that raise the number by one. */
  predicate Rooted(b: Block, g: Block)
    decreases b
  {
    b == g ||
    (b.parent.Of? && b.number == b.parent.block.number + 1 && Rooted(b.parent.block, g))
  }

  /** The blocks from `g` up to `b`, indexed by number. */
  function Path(b: Block, g: Block): (r: seq<Block>)
    requires g.number == 0 && Rooted(b, g)
    ensures |r| == b.number + 1 && r[0] == g && r[b.number] == b
    ensures forall i :: 0 <= i < |r| ==> r[i].number == i
    decreases b
  {
    if b == g then [g] else
      Path(b.parent.block, g) + [b]
  }

  /** A sequence of parent-linked blocks whose numbers are their positions. */
  ghost predicate Chained(path: seq<Block>) {
    && |path| > 0
    && (forall i :: 0 <= i < |path| ==> path[i].number == i)
    && (forall i {:trigger LinkAt(path, i)} :: 0 < i < |path| ==> LinkAt(path, i))
  }

  ghost predicate LinkAt(path: seq<Block>, i: int)
    requires 0 < i < |path|
  {
    path[i].parent == Of(path[i - 1])
  }

  lemma ChainPrefix(p: seq<Block>, n: nat)
    requires Chained(p) && 0 < n <= |p|
    ensures Chained(p[..n])
  {
    forall i | 0 < i < n ensures LinkAt(p[..n], i) {
      assert LinkAt(p, i);
    }
  }

  /** Every block of `path` can be looked up in `db`. */
  ghost predicate StoredIn(path: seq<Block>, db: map<Key, Block>) {
    forall i {:trigger StoredAt(path, db, i)} :: 0 <= i < |path| ==> StoredAt(path, db, i)
  }

  ghost predicate StoredAt(path: seq<Block>, db: map<Key, Block>, i: int)
    requires 0 <= i < |path|
  {
    KeyOf(path[i]) in db && db[KeyOf(path[i])] == path[i]
  }

  lemma {:induction false} PathChained(b: Block, g: Block)
    requires g.number == 0 && Rooted(b, g)
    ensures Chained(Path(b, g))
    decreases b
  {
    if b != g {
      var q := Path(b.parent.block, g);
      PathChained(b.parent.block, g);
      forall i | 0 < i <= b.number ensures LinkAt(Path(b, g), i) {
        assert i < b.number ==> LinkAt(q, i);
      }
    }
  }

  /** Two chains that meet at number `m` agree below it. */
  lemma {:induction false} ChainsAgreeBelow(p: seq<Block>, q: seq<Block>, m: nat)
    requires Chained(p) && Chained(q) && m < |p| && m < |q| && p[m] == q[m]
    ensures forall i :: 0 <= i <= m ==> p[i] == q[i]
  {
    if m > 0 {
      assert LinkAt(p, m) && LinkAt(q, m);
      ChainsAgreeBelow(p, q, m - 1);
    }
  }

  /** A chain is determined by its last block: it is that block's path. */
  lemma {:induction false} ChainIsPath(p: seq<Block>)
    requires Chained(p)
    ensures p[0].number == 0 && Rooted(p[|p| - 1], p[0]) && Path(p[|p| - 1], p[0]) == p
    decreases |p|
  {
    var n := |p| - 1;
    if n > 0 {
      assert LinkAt(p, n);
      ChainPrefix(p, n);
      ChainIsPath(p[..n]);
      assert p == p[..n] + [p[n]];
    }
  }

  /** The sum of the difficulties from `g` up to `b`. */
  function TotalDifficulty(b: Block, g: Block): nat
    requires Rooted(b, g)
    decreases b
  {
    if b == g then g.difficulty else
      b.difficulty + TotalDifficulty(b.parent.block, g)
  }

  /** The number index holds exactly the blocks of `path`, each under its position. */
  ghost predicate Indexes(canon: map<int, Hash>, path: seq<Block>) {
    && (forall i :: i in canon <==> 0 <= i < |path|)
    && (forall i :: 0 <= i < |path| ==> canon[i] == Of(path[i]))
  }

  // ---------------------------------------------------------------------------
  // Fork choice, stated on the set of stored blocks and the head
  // ---------------------------------------------------------------------------

  datatype Tree = Tree(genesis: Block, stored: set<Block>, head: Block)

  ghost predicate TreeOk(t: Tree) {
    && t.genesis.number == 0
    && t.genesis in t.stored
    && t.head in t.stored
    && (forall b {:trigger Rooted(b, t.genesis)} :: b in t.stored ==> Rooted(b, t.genesis))
    && (forall b {:trigger ParentStored(t.genesis, t.stored, b)} :: b in t.stored ==>
        ParentStored(t.genesis, t.stored, b))
  }

  ghost predicate ParentStored(g: Block, stored: set<Block>, b: Block) {
    b == g || (b.parent.Of? && b.parent.block in stored)
  }

  /** The head has the greatest total difficulty of everything stored. */
  ghost predicate Heaviest(t: Tree)
    requires TreeOk(t)
  {
    forall b {:trigger TotalDifficulty(b, t.genesis)} ::
      b in t.stored ==> TotalDifficulty(b, t.genesis) <= TotalDifficulty(t.head, t.genesis)
  }

  /** Among the heaviest stored blocks, the head has the smallest number. */
  ghost predicate Lowest(t: Tree)
    requires TreeOk(t)
  {
    forall b {:trigger TotalDifficulty(b, t.genesis)} ::
      b in t.stored && TotalDifficulty(b, t.genesis) == TotalDifficulty(t.head, t.genesis) ==> t.head.number <= b.number
  }

  /** A block can be written when its parent is stored under the preceding number. */
  predicate Linked(t: Tree, b: Block) {
    b.parent.Of? && b.parent.block in t.stored && b.number == b.parent.block.number + 1
  }

  lemma LinkedIsRooted(t: Tree, b: Block)
    requires TreeOk(t) && Linked(t, b)
    ensures Rooted(b, t.genesis) && b != t.genesis
    ensures TotalDifficulty(b, t.genesis) == b.difficulty + TotalDifficulty(b.parent.block, t.genesis)
  {
  }

  /** Storing a linked block, with either head, keeps the tree closed under parents. */
  lemma TreeGrows(t: Tree, b: Block, head: Block)
    requires TreeOk(t) && Linked(t, b) && head in t.stored + {b}
    ensures TreeOk(Tree(t.genesis, t.stored + {b}, head))
  {
    LinkedIsRooted(t, b);
    forall c | c in t.stored + {b} ensures ParentStored(t.genesis, t.stored + {b}, c) {
      assert c == b || ParentStored(t.genesis, t.stored, c);
    }
  }

  /** Whether a written header becomes the head: the heavier wins, `coin` decides a tie. */
  ghost predicate HeaderWins(t: Tree, b: Block, coin: bool)
    requires TreeOk(t) && Linked(t, b)
  {
    LinkedIsRooted(t, b);
    var ext, loc := TotalDifficulty(b, t.genesis), TotalDifficulty(t.head, t.genesis);
    ext > loc || (ext == loc && coin)
  }

  /** Whether a written block becomes the head: a tie goes to the lower number first and to `coin` last. */
  ghost predicate BlockWins(t: Tree, b: Block, coin: bool)
    requires TreeOk(t) && Linked(t, b)
  {
    LinkedIsRooted(t, b);
    var ext, loc := TotalDifficulty(b, t.genesis), TotalDifficulty(t.head, t.genesis);
    ext > loc || (ext == loc && (b.number < t.head.number || (b.number == t.head.number && coin)))
  }

  ghost function HeaderStep(t: Tree, b: Block, coin: bool): Tree
    requires TreeOk(t)
  {
    if !Linked(t, b) then t else
      Tree(t.genesis, t.stored + {b}, if HeaderWins(t, b, coin) then b else t.head)
  }

  ghost function BlockStep(t: Tree, b: Block, coin: bool): Tree
    requires TreeOk(t)
  {
    if !Linked(t, b) then t else
      Tree(t.genesis, t.stored + {b}, if BlockWins(t, b, coin) then b else t.head)
  }

  lemma HeaderStepKeeps(t: Tree, b: Block, coin: bool)
    requires TreeOk(t) && Heaviest(t)
    ensures TreeOk(HeaderStep(t, b, coin)) && Heaviest(HeaderStep(t, b, coin))
  {
    if Linked(t, b) {
      LinkedIsRooted(t, b);
      TreeGrows(t, b, t.head);
      TreeGrows(t, b, b);
    }
  }

  lemma BlockStepKeeps(t: Tree, b: Block, coin: bool)
    requires TreeOk(t) && Heaviest(t) && Lowest(t)
    ensures TreeOk(BlockStep(t, b, coin))
    ensures Heaviest(BlockStep(t, b, coin)) && Lowest(BlockStep(t, b, coin))
  {
    if Linked(t, b) {
      LinkedIsRooted(t, b);
      TreeGrows(t, b, t.head);
      TreeGrows(t, b, b);
    }
  }

  /** One write request: the block and the outcome of the random tie-break. */
  type Write = (Block, bool)

  ghost function HeaderRun(t: Tree, ws: seq<Write>): (r: Tree)
    requires TreeOk(t) && Heaviest(t)
    ensures TreeOk(r) && Heaviest(r)
  {
    if ws == [] then t else
      var u := HeaderRun(t, ws[..|ws| - 1]);
      var w := ws[|ws| - 1];
      HeaderStepKeeps(u, w.0, w.1);
      HeaderStep(u, w.0, w.1)
  }

  ghost function BlockRun(t: Tree, ws: seq<Write>): (r: Tree)
    requires TreeOk(t) && Heaviest(t) && Lowest(t)
    ensures TreeOk(r) && Heaviest(r) && Lowest(r)
  {
    if ws == [] then t else
      var u := BlockRun(t, ws[..|ws| - 1]);
      var w := ws[|ws| - 1];
      BlockStepKeeps(u, w.0, w.1);
      BlockStep(u, w.0, w.1)
  }

  // ---------------------------------------------------------------------------
  // The header (or block) table and the total-difficulty table
  // ---------------------------------------------------------------------------

  /** The tables hold a tree below `g`, closed under parents, with every total difficulty the sum along its path. */
  ghost predicate StoreOk(g: Block, db: map<Key, Block>, tds: map<Key, nat>) {
    && TableOk(db)
    && TreeOk(Tree(g, db.Values, g))
    && tds.Keys == db.Keys
    && (forall k {:trigger tds[k]} :: k in db ==> tds[k] == TotalDifficulty(db[k], g))
  }

  lemma StoredKey(db: map<Key, Block>, b: Block)
    requires TableOk(db)
    ensures KeyOf(b) in db <==> b in db.Values
    ensures KeyOf(b) in db ==> db[KeyOf(b)] == b
  {
    if b in db.Values {
      var k :| k in db && db[k] == b;
      assert k == KeyOf(b);
    }
    if KeyOf(b) in db {
      assert KeyOf(db[KeyOf(b)]) == KeyOf(b);
    }
  }

  /** The total-difficulty lookup for the parent succeeds exactly when the parent is stored at the preceding number. */
  lemma ParentLookup(g: Block, db: map<Key, Block>, tds: map<Key, nat>, head: Block, b: Block)
    requires StoreOk(g, db, tds)
    ensures (b.parent, b.number - 1) in tds <==> Linked(Tree(g, db.Values, head), b)
    ensures (b.parent, b.number - 1) in tds ==> b.parent.Of? && Rooted(b.parent.block, g)
    ensures (b.parent, b.number - 1) in tds ==> tds[(b.parent, b.number - 1)] == TotalDifficulty(b.parent.block, g)
  {
    if b.parent.Of? { StoredKey(db, b.parent.block); }
    if (b.parent, b.number - 1) in db {
      assert KeyOf(db[(b.parent, b.number - 1)]) == (b.parent, b.number - 1);
    }
  }

  /** The path of a stored block is stored. */
  lemma {:induction false} PathStored(g: Block, db: map<Key, Block>, tds: map<Key, nat>, b: Block)
    requires StoreOk(g, db, tds) && b in db.Values
    ensures Rooted(b, g) && Chained(Path(b, g)) && StoredIn(Path(b, g), db)
    decreases b
  {
    PathChained(b, g);
    StoredKey(db, b);
    if b != g {
      assert ParentStored(g, db.Values, b);
      PathStored(g, db, tds, b.parent.block);
    }
    forall i | 0 <= i <= b.number ensures StoredAt(Path(b, g), db, i) {
      assert i < b.number ==> StoredAt(Path(b.parent.block, g), db, i);
    }
  }

  /** Storing a linked block with its total difficulty keeps the tables consistent. */
  lemma StorePut(g: Block, db: map<Key, Block>, tds: map<Key, nat>, b: Block)
    requires StoreOk(g, db, tds) && Linked(Tree(g, db.Values, g), b) && Rooted(b, g)
    ensures StoreOk(g, db[KeyOf(b) := b], tds[KeyOf(b) := TotalDifficulty(b, g)])
    ensures db[KeyOf(b) := b].Values == db.Values + {b}
  {
    TreeGrows(Tree(g, db.Values, g), b, g);
    var db' := db[KeyOf(b) := b];
    forall c | c in db.Values + {b} ensures c in db'.Values {
      StoredKey(db, c);
      assert KeyOf(c) in db' && db'[KeyOf(c)] == c;
    }
    assert db'.Values == db.Values + {b};
  }

  lemma StoreGenesis(g: Block)
    requires g.number == 0
    ensures StoreOk(g, map[KeyOf(g) := g], map[KeyOf(g) := g.difficulty])
    ensures map[KeyOf(g) := g].Values == {g}
  {
    var db := map[KeyOf(g) := g];
    assert db[KeyOf(g)] == g;
    assert db.Values == {g};
  }
}
