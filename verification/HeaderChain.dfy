/**
 The header chain: a table of headers and total difficulties, a number index for
 the canonical chain, and the head header.  Writing a header re-routes the
 index in place with two loops; the class invariant says that after every write
 the index is exactly the ancestor path of the head.
 */
module HeaderChain {
  import opened ChainTree
  import opened Options

  datatype WriteStatus = CanonStat | SideStat
  datatype WriteResult = Written(status: WriteStatus) | UnknownAncestor

  /** The headers among the first `i` of a batch that are new when their turn comes, with their tie-breaks. */
  ghost function FreshWrites(stored: set<Block>, chain: seq<Block>, coins: seq<bool>, i: nat): seq<Write>
    requires i <= |chain| == |coins|
  {
    if i == 0 then [] else
      var ws, header := FreshWrites(stored, chain, coins, i - 1), chain[i - 1];
      if header in stored || header in Members(chain[..i - 1]) then ws else ws + [(header, coins[i - 1])]
  }

  /** A run of header writes leads from one tree to the other. */
  ghost predicate HeaderRan(t: Tree, ws: seq<Write>, u: Tree) {
    TreeOk(t) && Heaviest(t) && u == HeaderRun(t, ws)
  }

  lemma RanOne(t: Tree, ws: seq<Write>, u: Tree, b: Block, coin: bool)
    requires HeaderRan(t, ws, u)
    ensures HeaderRan(t, ws + [(b, coin)], HeaderStep(u, b, coin))
  {
    assert (ws + [(b, coin)])[..|ws|] == ws;
  }

  /** A run only adds headers, so its head is at least as heavy as the one before. */
  lemma {:induction false} RanHeavier(t: Tree, ws: seq<Write>)
    requires TreeOk(t) && Heaviest(t)
    ensures t.stored <= HeaderRun(t, ws).stored && HeaderRun(t, ws).genesis == t.genesis
    ensures TotalDifficulty(t.head, t.genesis) <= TotalDifficulty(HeaderRun(t, ws).head, t.genesis)
    decreases |ws|
  {
    if ws != [] {
      RanHeavier(t, ws[..|ws| - 1]);
    }
    assert t.head in HeaderRun(t, ws).stored;
  }

  class HeaderChain {
    const genesis: Block
    var headers: map<Key, Block>
    var tds: map<Key, nat>
    var canon: map<int, Hash>
    var currentHeader: Block
    var currentHeaderHash: Hash
    var headHeaderHash: Hash  // the persisted head marker

    /** The stored headers and the head, without the index. */
    ghost function Contents(): Tree
      reads this
    {
      Tree(genesis, headers.Values, currentHeader)
    }

    ghost predicate Valid()
      reads this
    {
      && StoreOk(genesis, headers, tds)
      && currentHeader in headers.Values
      && currentHeaderHash == headHeaderHash == Of(currentHeader)
      && Indexes(canon, Path(currentHeader, genesis))
      && Heaviest(Contents())
    }

    /** A database holding just the committed genesis header. */
    constructor (g: Block)
      requires g.number == 0
      ensures Valid() && genesis == g && Contents() == Tree(g, {g}, g)
    {
      StoreGenesis(g);
      genesis := g;
      headers := map[KeyOf(g) := g];
      tds := map[KeyOf(g) := g.difficulty];
      canon := map[0 := Of(g)];
      currentHeader, currentHeaderHash, headHeaderHash := g, Of(g), Of(g);
    }

    function GetCanonicalHash(number: int): Hash
      reads this
    {
      if number in canon then canon[number] else Zero
    }

    /**
     Writes a header whose parent is known, re-routing the canonical index when
     the new header is heavier (or as heavy, and the coin says so).
     */
    method WriteHeader(header: Block, coin: bool) returns (r: WriteResult)
      requires Valid()
      modifies this
      ensures Valid()
      ensures Contents() == HeaderStep(old(Contents()), header, coin)
      ensures r == (if !Linked(old(Contents()), header) then UnknownAncestor
                    else if HeaderWins(old(Contents()), header, coin) then Written(CanonStat) else Written(SideStat))
    {
      ghost var before := Contents();
      ParentLookup(genesis, headers, tds, currentHeader, header);
      if (header.parent, header.number - 1) !in tds {
        return UnknownAncestor;
      }
      HeaderStepKeeps(before, header, coin);
      var externTd, localTd := Store(header);
      if externTd > localTd || (externTd == localTd && coin) {
        Adopt(header);
        r := Written(CanonStat);
      } else {
        r := Written(SideStat);
      }
    }

    /** Stores a linked header with its total difficulty, whatever the fork choice will be. */
    method Store(header: Block) returns (externTd: nat, localTd: nat)
      requires Valid() && Linked(Contents(), header)
      modifies this`headers, this`tds
      ensures StoreOk(genesis, headers, tds) && headers.Values == old(headers.Values) + {header}
      ensures Rooted(header, genesis) && header != genesis && Rooted(currentHeader, genesis)
      ensures externTd == TotalDifficulty(header, genesis) && localTd == TotalDifficulty(currentHeader, genesis)
    {
      ParentLookup(genesis, headers, tds, currentHeader, header);
      LinkedIsRooted(Contents(), header);
      StoredKey(headers, currentHeader);
      localTd := tds[(currentHeaderHash, currentHeader.number)];
      externTd := header.difficulty + tds[(header.parent, header.number - 1)];
      StorePut(genesis, headers, tds, header);
      tds := tds[KeyOf(header) := externTd];
      headers := headers[KeyOf(header) := header];
    }

    /** Re-routes the canonical chain onto a stored header and makes it the head. */
    method Adopt(header: Block)
      requires StoreOk(genesis, headers, tds) && {header, currentHeader} <= headers.Values && header != genesis
      requires Indexes(canon, Path(currentHeader, genesis))
      modifies this`canon, this`headHeaderHash, this`currentHeader, this`currentHeaderHash
      ensures currentHeader == header && currentHeaderHash == headHeaderHash == Of(header)
      ensures Indexes(canon, Path(header, genesis))
    {
      ghost var path := Path(currentHeader, genesis);
      PathStored(genesis, headers, tds, currentHeader);
      PathStored(genesis, headers, tds, header);
      DeleteAbove(header.number, path);
      Reroute(header, Path(header, genesis), if header.number < |path| then path[..header.number + 1] else path);
      canon := canon[header.number := Of(header)];
      headHeaderHash := Of(header);
      currentHeaderHash, currentHeader := Of(header), header;
    }

    /** Deletes the run of number entries just above `number`. */
    method DeleteAbove(number: nat, ghost path: seq<Block>)
      requires Chained(path) && Indexes(canon, path)
      modifies this`canon
      ensures var kept := if number < |path| then path[..number + 1] else path;
        Chained(kept) && Indexes(canon, kept)
    {
      var i := number + 1;
      while GetCanonicalHash(i) != Zero
        invariant number < i && (i <= |path| || i == number + 1)
        invariant forall j :: j in canon <==> 0 <= j < |path| && (j <= number || i <= j)
        invariant forall j :: j in canon ==> canon[j] == Of(path[j])
        decreases |path| - i
      {
        canon := canon - {i};
        i := i + 1;
      }
      if number < |path| { ChainPrefix(path, number + 1); }
    }

    /**
     Rewrites the number entries from the header's parent down to the first one
     that is already right: with the header's own entry the index is its path.
     */
    method Reroute(header: Block, ghost path: seq<Block>, ghost was: seq<Block>)
      requires Chained(path) && StoredIn(path, headers) && Chained(was)
      requires |was| <= |path| && 1 < |path| && path[|path| - 1] == header && was[0] == path[0]
      requires Indexes(canon, was)
      modifies this`canon
      ensures Indexes(canon[header.number := Of(header)], path)
    {
      var headHash := header.parent;
      var headNumber: int := header.number - 1;
      assert LinkAt(path, header.number) && StoredAt(path, headers, header.number - 1);
      var headHeader := headers[(headHash, headNumber)];
      while GetCanonicalHash(headNumber) != headHash
        invariant 0 <= headNumber < header.number
        invariant headHeader == path[headNumber] && headHash == Of(headHeader)
        invariant forall i :: headNumber < i < header.number ==> i in canon && canon[i] == Of(path[i])
        invariant forall i :: i <= headNumber ==> (i in canon <==> 0 <= i < |was|)
        invariant forall i :: 0 <= i <= headNumber && i < |was| ==> canon[i] == Of(was[i])
        invariant forall i :: i in canon ==> 0 <= i <= header.number
        decreases headNumber
      {
        canon := canon[headNumber := headHash];
        assert LinkAt(path, headNumber) && StoredAt(path, headers, headNumber - 1);
        headHash, headNumber := headHeader.parent, headHeader.number - 1;
        headHeader := headers[(headHash, headNumber)];
      }
      ChainsAgreeBelow(path, was, headNumber);
    }

    /**
     How an import stands after the first `i` headers of a batch: they are stored,
     and the head is the fork choice's.
     */
    ghost predicate Importing(t: Tree, chain: seq<Block>, coins: seq<bool>, i: nat)
      requires i <= |chain| == |coins|
      reads this
    {
      && Valid() && headers.Values == t.stored + Members(chain[..i])
      && HeaderRan(t, FreshWrites(t.stored, chain, coins, i), Contents())
    }

    /** The step of the import loop: skip a known header, otherwise write it. */
    method Import(chain: seq<Block>, coins: seq<bool>, i: nat, ghost t: Tree) returns (ok: bool)
      requires i < |chain| == |coins| && Importing(t, chain, coins, i)
      modifies this
      ensures ok ==> Importing(t, chain, coins, i + 1)
      ensures !ok ==> Importing(t, chain, coins, i) && !Linked(Contents(), chain[i])
    {
      MembersGrow(chain, i);
      StoredKey(headers, chain[i]);
      if KeyOf(chain[i]) in headers {
        return true;
      }
      RanOne(t, FreshWrites(t.stored, chain, coins, i), Contents(), chain[i], coins[i]);
      var r := WriteHeader(chain[i], coins[i]);
      ok := r.Written?;
    }

    /**
     Imports a batch of headers, skipping known ones and stopping at the first
     that cannot be linked.  `coins` holds the tie-breaks, `interrupted` says
     before which header the import is told to shut down, if any.  What is stored
     and the head are those of the fork-choice run over the new headers.
     */
    method InsertHeaderChain(chain: seq<Block>, coins: seq<bool>, interrupted: nat) returns (n: nat, ok: bool)
      requires Valid() && |coins| == |chain|
      modifies this
      ensures !ok ==> n < |chain|
      ensures Importing(old(Contents()), chain, coins, if ok then |chain| else n)
      ensures !ok ==> n == interrupted || !Linked(Contents(), chain[n])
      ensures TotalDifficulty(old(currentHeader), genesis) <= TotalDifficulty(currentHeader, genesis)
    {
      ghost var t := Contents();
      n := ImportAll(chain, coins, interrupted, t);
      RanHeavier(t, FreshWrites(t.stored, chain, coins, n));
      ok := n == |chain|;
      n := if ok then 0 else n;
    }

    /** The import loop: how many headers were imported before one could not be, or the interruption. */
    method ImportAll(chain: seq<Block>, coins: seq<bool>, interrupted: nat, ghost t: Tree) returns (n: nat)
      requires |coins| == |chain| && Importing(t, chain, coins, 0)
      modifies this
      ensures n <= |chain| && Importing(t, chain, coins, n)
      ensures n < |chain| ==> n == interrupted || !Linked(Contents(), chain[n])
    {
      n := 0;
      var ok := true;
      while ok && n < |chain| && n != interrupted
        invariant n <= |chain| && Importing(t, chain, coins, n)
        invariant !ok ==> n < |chain| && !Linked(Contents(), chain[n])
        decreases |chain| - n, ok
      {
        ok := Import(chain, coins, n, t);
        n := if ok then n + 1 else n;
      }
    }
  }
}
