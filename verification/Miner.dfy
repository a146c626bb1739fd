/**
 Assembling a block and checking it.  The miner tries candidate transactions and
 reverts those that fail; the validator processes the ones in the block, and has
 to arrive at the same state and receipts.
 */
module Miner {
  import opened Ledger
  import opened Options

  /**
   What the fork rules of a block say: empty accounts are deleted, receipts carry
   the state root, protected transactions count.
   */
  datatype Rules = Rules(deleteEmpty: bool, roots: bool, eip155: bool)

  /** A receipt, with the root over everything where the rules ask for it. */
  datatype Receipt = Receipt(tx: TxHash, root: Option<Core>)

  /** The state between transactions: its contents and the accounts marked dirty since the parent block. */
  datatype World = World(core: Core, dirty: set<Addr>)

  function CreatedIn(journal: Journal): set<Addr> {
    match journal
    case Blank => {}
    case Entry(before, u) => CreatedIn(before) + if u.Created? then {u.addr} else {}
  }

  /** A failed transaction reverted: contents as before, but accounts it changed without creating them stay marked. */
  function Reverted(w: World, e: Effect): World {
    World(w.core.(accounts := AllUndone(e.changes.accounts, e.changes.journal)),
          (w.dirty + e.changes.dirty) - CreatedIn(e.changes.journal))
  }

  /** A successful transaction finalised. */
  function Finished(w: World, e: Effect, rules: Rules): World {
    var dirty := w.dirty + e.changes.dirty;
    World(Core(Finalised(e.changes.accounts, dirty, rules.deleteEmpty), e.records, e.candidates), dirty)
  }

  function ReceiptOf(w: World, tx: Tx, rules: Rules): Receipt {
    Receipt(tx.hash, if rules.roots then Some(w.core) else None)
  }

  // ---------------------------------------------------------------------------
  // Validation
  // ---------------------------------------------------------------------------

  datatype Outcome = Outcome(world: World, receipts: seq<Receipt>)

  /** Processes a transaction of a block; an error makes the block invalid. */
  function Processed(o: Outcome, tx: Tx, rules: Rules): Option<Outcome> {
    var e := Apply(o.world.core, tx);
    if e.error.Some? then None else
    var w := Finished(o.world, e, rules);
    Some(Outcome(w, o.receipts + [ReceiptOf(w, tx, rules)]))
  }

  function Replay(core: Core, txs: seq<Tx>, rules: Rules): Option<Outcome> {
    if txs == [] then Some(Outcome(World(core, {}), [])) else
    var o := Replay(core, txs[..|txs| - 1], rules);
    if o.None? then None else Processed(o.value, txs[|txs| - 1], rules)
  }

  /** Processes the transactions of a block from the parent's state. */
  method Process(core: Core, txs: seq<Tx>, rules: Rules) returns (r: Option<Outcome>)
    ensures r == Replay(core, txs, rules)
  {
    var o := Outcome(World(core, {}), []);
    var i := 0;
    while i < |txs|
      invariant 0 <= i <= |txs| && Replay(core, txs[..i], rules) == Some(o)
    {
      var next := Processed(o, txs[i], rules);
      assert txs[..i + 1][..i] == txs[..i];
      if next.None? {
        ReplayFails(core, txs, i + 1, rules);
        return None;
      }
      o := next.value;
      i := i + 1;
    }
    assert txs[..|txs|] == txs;
    r := Some(o);
  }

  lemma {:induction false} ReplayFails(core: Core, txs: seq<Tx>, k: nat, rules: Rules)
    requires k <= |txs| && Replay(core, txs[..k], rules).None?
    ensures Replay(core, txs, rules).None?
    decreases |txs|
  {
    if k < |txs| {
      assert txs[..|txs| - 1][..k] == txs[..k];
      ReplayFails(core, txs[..|txs| - 1], k, rules);
    } else {
      assert txs[..k] == txs;
    }
  }

  // ---------------------------------------------------------------------------
  // Mining
  // ---------------------------------------------------------------------------

  datatype Mined = Mined(world: World, txs: seq<Tx>, receipts: seq<Receipt>)

  /** Tries a transaction: reverted if it fails, committed if not. */
  function Tried(m: Mined, tx: Tx, rules: Rules): Mined {
    var e := Apply(m.world.core, tx);
    if e.error.Some? then m.(world := Reverted(m.world, e)) else
    var w := Finished(m.world, e, rules);
    Mined(w, m.txs + [tx], m.receipts + [ReceiptOf(w, tx, rules)])
  }

  /** What trying these transactions one after the other leads to. */
  function Mine(core: Core, tried: seq<Tx>, rules: Rules): Mined {
    if tried == [] then Mined(World(core, {}), [], []) else
    Tried(Mine(core, tried[..|tried| - 1], rules), tried[|tried| - 1], rules)
  }

  /** The block's transactions replay without error, to the same state and the same receipts. */
  ghost predicate Agrees(core: Core, m: Mined, rules: Rules) {
    var r := Replay(core, m.txs, rules);
    r.Some? && r.value.world.core == m.world.core && r.value.receipts == m.receipts
  }

  ghost predicate Clean(core: Core, rules: Rules) {
    rules.deleteEmpty ==> NoneEmpty(core.accounts)
  }

  /** A failing transaction leaves no trace in the contents. */
  lemma FailureIsReverted(w: World, tx: Tx)
    requires Apply(w.core, tx).error.Some?
    ensures Reverted(w, Apply(w.core, tx)).core == w.core
  {
    ApplyKeeps(w.core, tx);
  }

  /** A successful transaction does the same to worlds of equal contents, whatever else is marked dirty in them. */
  lemma SuccessAgrees(v: World, w: World, tx: Tx, rules: Rules)
    requires v.core == w.core && Clean(v.core, rules) && Apply(v.core, tx).error.None?
    ensures Finished(v, Apply(v.core, tx), rules).core == Finished(w, Apply(w.core, tx), rules).core
    ensures Clean(Finished(v, Apply(v.core, tx), rules).core, rules)
  {
    ApplyKeeps(v.core, tx);
    FinalisedAgree(v.core.accounts, Apply(v.core, tx).changes, v.dirty, w.dirty, rules.deleteEmpty);
  }

  lemma ReplayNext(core: Core, txs: seq<Tx>, tx: Tx, rules: Rules)
    requires Replay(core, txs, rules).Some?
    ensures Replay(core, txs + [tx], rules) == Processed(Replay(core, txs, rules).value, tx, rules)
  {
    assert (txs + [tx])[..|txs|] == txs;
  }

  lemma TriedAgrees(core: Core, m: Mined, tx: Tx, rules: Rules)
    requires Agrees(core, m, rules) && Clean(m.world.core, rules)
    ensures Agrees(core, Tried(m, tx, rules), rules) && Clean(Tried(m, tx, rules).world.core, rules)
  {
    var e := Apply(m.world.core, tx);
    if e.error.Some? {
      FailureIsReverted(m.world, tx);
    } else {
      SuccessAgrees(m.world, Replay(core, m.txs, rules).value.world, tx, rules);
      ReplayNext(core, m.txs, tx, rules);
    }
  }

  /**
   From a parent state without empty accounts, or where those are not deleted,
   the miner and the validator agree, whatever is tried.
   */
  lemma {:induction false} MinerAndValidatorAgree(core: Core, tried: seq<Tx>, rules: Rules)
    requires Clean(core, rules)
    ensures Agrees(core, Mine(core, tried, rules), rules) && Clean(Mine(core, tried, rules).world.core, rules)
  {
    if tried != [] {
      MinerAndValidatorAgree(core, tried[..|tried| - 1], rules);
      TriedAgrees(core, Mine(core, tried[..|tried| - 1], rules), tried[|tried| - 1], rules);
    }
  }

  /** A transfer an empty account cannot pay for, and a transaction that always succeeds. */
  function Unpayable(a: Addr): Tx {
    Tx(0, Binary, a, Some(a), 0, 1, 0, true, false)
  }

  function Harmless(a: Addr): Tx {
    Tx(1, LoginCandidate, a, None, 0, 0, 0, true, false)
  }

  /**
   An empty account of the parent state that sends a transaction which fails after
   its nonce was set stays marked dirty, and the miner deletes it with the next
   success; the validator never sees it and keeps it.
   */
  lemma EmptyAccountDisagrees(core: Core, a: Addr, rules: Rules)
    requires rules.deleteEmpty && a in core.accounts && Empty(core.accounts[a])
    ensures !Agrees(core, Mine(core, [Unpayable(a), Harmless(a)], rules), rules)
  {
    var tried := [Unpayable(a), Harmless(a)];
    var m0 := Mine(core, [], rules);
    var m1 := Tried(m0, Unpayable(a), rules);
    assert tried[..1] == [Unpayable(a)] && [Unpayable(a)][..0] == [];
    assert Mine(core, [Unpayable(a)], rules) == m1;
    assert Mine(core, tried, rules) == Tried(m1, Harmless(a), rules);
    FailureMarks(m0.world, a);
    HarmlessDeletes(m1, a, rules);
    ReplayHarmless(core, a, rules);
  }

  lemma FailureMarks(w: World, a: Addr)
    requires a in w.core.accounts && Empty(w.core.accounts[a])
    ensures var e := Apply(w.core, Unpayable(a));
            e.error == Some(InsufficientBalance) && a in Reverted(w, e).dirty && Reverted(w, e).core == w.core
  {
    var c := Begin(w.core.accounts);
    assert Exist(c, a) == c;
    assert PreCheck(w.core.accounts, Unpayable(a)) == (c, None);
    var e := Reserve(c, Unpayable(a));
    assert e == WithNonce(c, a, 1);
    assert e.journal == Entry(Blank, NonceWas(a, 0)) && CreatedIn(e.journal) == {};
    FailureIsReverted(w, Unpayable(a));
  }

  lemma HarmlessDeletes(m: Mined, a: Addr, rules: Rules)
    requires rules.deleteEmpty && a in m.world.dirty && a in m.world.core.accounts && Empty(m.world.core.accounts[a])
    ensures var n := Tried(m, Harmless(a), rules);
            a !in n.world.core.accounts && n.txs == m.txs + [Harmless(a)]
  {
  }

  lemma ReplayHarmless(core: Core, a: Addr, rules: Rules)
    requires a in core.accounts
    ensures var r := Replay(core, [Harmless(a)], rules);
            r.Some? && a in r.value.world.core.accounts
  {
    assert [Harmless(a)][..0] == [];
    assert Replay(core, [], rules) == Some(Outcome(World(core, {}), []));
  }

  /** The miner and the validator agree on everything that may be tried exactly if the parent state is clean. */
  lemma AgreeIffClean(core: Core, rules: Rules)
    ensures (forall tried {:trigger Mine(core, tried, rules)} ::
              Agrees(core, Mine(core, tried, rules), rules)) <==> Clean(core, rules)
  {
    if Clean(core, rules) {
      forall tried ensures Agrees(core, Mine(core, tried, rules), rules) {
        MinerAndValidatorAgree(core, tried, rules);
      }
    } else {
      var a :| a in core.accounts && Empty(core.accounts[a]);
      EmptyAccountDisagrees(core, a, rules);
    }
  }

  // ---------------------------------------------------------------------------
  // The miner's work
  // ---------------------------------------------------------------------------

  /** Undoes a journal, last entry first. */
  method RevertToSnapshot(accounts: Accounts, journal: Journal) returns (r: Accounts)
    ensures r == AllUndone(accounts, journal)
  {
    r := accounts;
    var left := journal;
    while left.Entry?
      invariant AllUndone(r, left) == AllUndone(accounts, journal)
      decreases left
    {
      r := Undone(r, left.undo);
      left := left.before;
    }
  }

  function Pending(queues: map<Addr, seq<Tx>>): set<Addr> {
    set a | a in queues && queues[a] != []
  }

  ghost function Slots(queues: map<Addr, seq<Tx>>): set<(Addr, nat)> {
    set a, i | a in queues && 0 <= i < |queues[a]| :: (a, i)
  }

  /** How many candidates are left. */
  ghost function Size(queues: map<Addr, seq<Tx>>): nat {
    |Slots(queues)|
  }

  lemma ShiftShrinks(queues: map<Addr, seq<Tx>>, a: Addr)
    requires a in queues && queues[a] != []
    ensures Size(queues[a := queues[a][1..]]) < Size(queues) && Size(queues[a := []]) < Size(queues)
  {
    var last := (a, |queues[a]| - 1);
    assert last in Slots(queues);
    Fewer(queues[a := queues[a][1..]], queues, last);
    Fewer(queues[a := []], queues, last);
  }

  lemma Fewer(q: map<Addr, seq<Tx>>, r: map<Addr, seq<Tx>>, x: (Addr, nat))
    requires x in Slots(r) && x !in Slots(q) && forall a :: a in q ==> a in r && |q[a]| <= |r[a]|
    ensures Size(q) < Size(r)
  {
    var small, large := Slots(q), Slots(r);
    forall y | y in small ensures y in large && y != x {
      assert y.0 in q && y.0 in r && 0 <= y.1 < |r[y.0]|;
    }
    assert large == small + {x} + (large - small - {x});
  }

  /** A candidate whose execution failed for its high nonce in the state it was tried in. */
  ghost predicate TooHigh(parent: Core, rules: Rules, tried: seq<Tx>, tx: Tx) {
    exists j :: 0 <= j < |tried| && tried[j] == tx && FailsHigh(parent, rules, tried[..j], tx)
  }

  ghost predicate FailsHigh(parent: Core, rules: Rules, before: seq<Tx>, tx: Tx) {
    Apply(Mine(parent, before, rules).world.core, tx).error == Some(NonceTooHigh)
  }

  /** The first `k` candidates were tried since `start`. */
  ghost predicate TriedFirst(c: seq<Tx>, k: nat, tried: seq<Tx>, start: nat)
    requires k <= |c| && start <= |tried|
  {
    forall i :: 0 <= i < k ==> c[i] in tried[start..]
  }

  /** Why an account's candidates after the first `k` were passed over, if any were. */
  ghost predicate StopsAt(c: seq<Tx>, k: nat, tried: seq<Tx>, parent: Core, rules: Rules)
    requires k <= |c|
  {
    k == |c| || (c[k].isProtected && !rules.eip155) || (k > 0 && TooHigh(parent, rules, tried, c[k - 1]))
  }

  /** All of an account's candidates up to a reason to stop were tried. */
  ghost predicate Served(c: seq<Tx>, tried: seq<Tx>, start: nat, parent: Core, rules: Rules)
    requires start <= |tried|
  {
    exists k: nat :: k <= |c| && TriedFirst(c, k, tried, start) && StopsAt(c, k, tried, parent, rules)
  }

  /** What is left of an account's candidates, those before having been tried. */
  ghost predicate Underway(c: seq<Tx>, left: seq<Tx>, tried: seq<Tx>, start: nat)
    requires start <= |tried|
  {
    exists k: nat :: k <= |c| && left == c[k..] && TriedFirst(c, k, tried, start)
  }

  ghost predicate OnTurn(c: seq<Tx>, left: seq<Tx>, tried: seq<Tx>, start: nat, parent: Core, rules: Rules)
    requires start <= |tried|
  {
    Underway(c, left, tried, start) || (left == [] && Served(c, tried, start, parent, rules))
  }

  lemma TriedMore(c: seq<Tx>, k: nat, tried: seq<Tx>, start: nat, tx: Tx)
    requires k <= |c| && start <= |tried| && TriedFirst(c, k, tried, start)
    ensures TriedFirst(c, k, tried + [tx], start)
    ensures k < |c| && c[k] == tx ==> TriedFirst(c, k + 1, tried + [tx], start)
  {
    var more := (tried + [tx])[start..];
    assert more == tried[start..] + [tx];
    assert more[|more| - 1] == tx;
  }

  lemma TurnKept(c: seq<Tx>, left: seq<Tx>, tried: seq<Tx>, start: nat, parent: Core, rules: Rules, tx: Tx)
    requires start <= |tried| && OnTurn(c, left, tried, start, parent, rules)
    ensures OnTurn(c, left, tried + [tx], start, parent, rules)
  {
    if Underway(c, left, tried, start) {
      var k: nat :| k <= |c| && left == c[k..] && TriedFirst(c, k, tried, start);
      TriedMore(c, k, tried, start, tx);
    } else {
      var k: nat :| k <= |c| && TriedFirst(c, k, tried, start) && StopsAt(c, k, tried, parent, rules);
      TriedMore(c, k, tried, start, tx);
      if k > 0 && TooHigh(parent, rules, tried, c[k - 1]) {
        var j :| 0 <= j < |tried| && tried[j] == c[k - 1] && FailsHigh(parent, rules, tried[..j], c[k - 1]);
        assert (tried + [tx])[j] == c[k - 1] && (tried + [tx])[..j] == tried[..j];
      }
    }
  }

  /** The account whose candidate was just tried goes on to the next one, or stops at a high nonce. */
  lemma TurnTaken(c: seq<Tx>, left: seq<Tx>, tried: seq<Tx>, start: nat, parent: Core, rules: Rules)
    requires start <= |tried| && left != [] && OnTurn(c, left, tried, start, parent, rules)
    ensures Underway(c, left[1..], tried + [left[0]], start)
    ensures FailsHigh(parent, rules, tried, left[0]) ==> Served(c, tried + [left[0]], start, parent, rules)
  {
    var k: nat :| k <= |c| && left == c[k..] && TriedFirst(c, k, tried, start);
    TriedMore(c, k, tried, start, left[0]);
    assert left[1..] == c[k + 1..];
    assert (tried + [left[0]])[|tried|] == left[0] && (tried + [left[0]])[..|tried|] == tried;
    assert FailsHigh(parent, rules, tried, left[0]) ==> StopsAt(c, k + 1, tried + [left[0]], parent, rules);
  }

  lemma TurnEnded(c: seq<Tx>, left: seq<Tx>, tried: seq<Tx>, start: nat, parent: Core, rules: Rules)
    requires start <= |tried| && OnTurn(c, left, tried, start, parent, rules)
    requires left == [] || (left[0].isProtected && !rules.eip155)
    ensures Served(c, tried, start, parent, rules)
  {
    if Underway(c, left, tried, start) {
      var k: nat :| k <= |c| && left == c[k..] && TriedFirst(c, k, tried, start);
      assert StopsAt(c, k, tried, parent, rules);
    }
  }

  class Work {
    const rules: Rules
    var world: World
    var txs: seq<Tx>
    var receipts: seq<Receipt>
    /** The parent's state, and everything tried so far. */
    ghost const parent: Core
    ghost var tried: seq<Tx>

    ghost predicate Valid()
      reads this
    {
      Mined(world, txs, receipts) == Mine(parent, tried, rules)
    }

    constructor (parent: Core, rules: Rules)
      ensures Valid() && this.parent == parent && this.rules == rules && txs == []
    {
      this.rules, this.parent := rules, parent;
      world, txs, receipts, tried := World(parent, {}), [], [], [];
    }

    /** Executes a transaction, reverting to the snapshot if it fails. */
    method CommitTransaction(tx: Tx) returns (err: Option<Error>)
      requires Valid()
      modifies this
      ensures Valid() && tried == old(tried) + [tx] && err == Apply(old(world).core, tx).error
      ensures txs == if err.Some? then old(txs) else old(txs) + [tx]
    {
      var e := Apply(world.core, tx);
      err := e.error;
      assert (tried + [tx])[..|tried|] == tried;
      tried := tried + [tx];
      if err.Some? {
        var accounts := RevertToSnapshot(e.changes.accounts, e.changes.journal);
        world := World(world.core.(accounts := accounts),
                       (world.dirty + e.changes.dirty) - CreatedIn(e.changes.journal));
      } else {
        world := Finished(world, e, rules);
        txs, receipts := txs + [tx], receipts + [ReceiptOf(world, tx, rules)];
      }
    }

    /** How the candidates stand: what was taken from each account's queue was tried, in order. */
    ghost predicate Trying(candidates: map<Addr, seq<Tx>>, queues: map<Addr, seq<Tx>>, start: nat)
      reads this
    {
      && Valid() && start <= |tried| && queues.Keys == candidates.Keys
      && forall a {:trigger queues[a]} :: a in candidates ==>
          OnTurn(candidates[a], queues[a], tried, start, parent, rules)
    }

    /** Tries some account's next candidate, or drops the account. */
    method TryNext(ghost candidates: map<Addr, seq<Tx>>, queues: map<Addr, seq<Tx>>, ghost start: nat)
      returns (next: map<Addr, seq<Tx>>)
      requires Trying(candidates, queues, start) && Pending(queues) != {}
      modifies this
      ensures Trying(candidates, next, start) && Size(next) < Size(queues) && old(tried) <= tried && old(txs) <= txs
    {
      var a :| a in Pending(queues);
      var tx := queues[a][0];
      ShiftShrinks(queues, a);
      if tx.isProtected && !rules.eip155 {
        TurnEnded(candidates[a], queues[a], tried, start, parent, rules);
        next := queues[a := []];
      } else {
        forall b | b in candidates ensures OnTurn(candidates[b], queues[b], tried + [tx], start, parent, rules) {
          TurnKept(candidates[b], queues[b], tried, start, parent, rules, tx);
        }
        TurnTaken(candidates[a], queues[a], tried, start, parent, rules);
        var err := CommitTransaction(tx);
        next := queues[a := if err == Some(NonceTooHigh) then [] else queues[a][1..]];
      }
    }

    /**
     Tries the candidates of all accounts in some order, each account's in order.
     A nonce that is too high drops the account; any other failure only the
     transaction.  Whatever the candidates, the block replays to the miner's state
     and receipts if the parent state is clean.
     */
    method CommitTransactions(candidates: map<Addr, seq<Tx>>)
      requires Valid()
      modifies this
      ensures Valid() && old(tried) <= tried && old(txs) <= txs
      ensures Clean(parent, rules) ==> Agrees(parent, Mined(world, txs, receipts), rules)
      ensures forall a :: a in candidates ==> Served(candidates[a], tried, |old(tried)|, parent, rules)
    {
      var queues := candidates;
      ghost var start := |tried|;
      forall a | a in candidates ensures OnTurn(candidates[a], queues[a], tried, start, parent, rules) {
        assert candidates[a] == candidates[a][0..];
      }
      while Pending(queues) != {}
        invariant old(txs) <= txs && Trying(candidates, queues, start) && old(tried) <= tried
        decreases Size(queues)
      {
        queues := TryNext(candidates, queues, start);
      }
      forall a | a in candidates ensures Served(candidates[a], tried, start, parent, rules) {
        assert a !in Pending(queues);
        TurnEnded(candidates[a], queues[a], tried, start, parent, rules);
      }
      if Clean(parent, rules) {
        MinerAndValidatorAgree(parent, tried, rules);
      }
    }
  }
}
