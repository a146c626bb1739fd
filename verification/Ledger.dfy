/**
 State transitions.  A transaction changes accounts in place, marking them dirty
 and journalling how to undo each change; some of them fail after having changed
 something.  At the end of a successful one, dirty accounts that are empty may be
 deleted.
 */
module Ledger {
  import opened Options

  type Addr = nat
  type RecordHash = nat
  type TxHash = nat

  datatype Account = Account(nonce: nat, balance: int, contribution: nat, records: seq<nat>)

  type Accounts = map<Addr, Account>

  datatype Record = Record(origin: Addr, owner: Addr, status: nat, txs: seq<TxHash>)

  datatype Kind = Binary | LoginCandidate | LogoutCandidate | ConfirmationData | AuthorizationData | TransferData

  /** A transaction; `wellFormed` is that its sender can be derived and that it passes its own validation. */
  datatype Tx = Tx(hash: TxHash, kind: Kind, sender: Addr, to: Option<Addr>, nonce: nat, value: nat, data: RecordHash,
                   wellFormed: bool, isProtected: bool)

  datatype Error = Malformed | NonceTooHigh | NonceTooLow | InsufficientBalance | RecordExists | NotOwner | BadStatus

  const NEW_ACCOUNT := Account(0, 0, 0, [])
  const MISSING_STATUS := 100

  predicate Empty(a: Account) {
    a.nonce == 0 && a.balance == 0 && a.contribution == 0
  }

  // ---------------------------------------------------------------------------
  // Changes to accounts and how they are undone
  // ---------------------------------------------------------------------------

  datatype Undo = Created(addr: Addr) | NonceWas(addr: Addr, nonce: nat) | BalanceWas(addr: Addr, balance: int)

  /** The changes of a transaction so far, each entry behind those before it. */
  datatype Journal = Blank | Entry(before: Journal, undo: Undo)

  /** The accounts during a transaction, those changed in it, and its journal. */
  datatype Changes = Changes(accounts: Accounts, dirty: set<Addr>, journal: Journal)

  function Undone(accounts: Accounts, u: Undo): Accounts {
    match u
    case Created(a) => accounts - {a}
    case NonceWas(a, prev) => if a in accounts then accounts[a := accounts[a].(nonce := prev)] else accounts
    case BalanceWas(a, prev) => if a in accounts then accounts[a := accounts[a].(balance := prev)] else accounts
  }

  /** Undoes a journal, last change first. */
  function AllUndone(accounts: Accounts, journal: Journal): Accounts {
    match journal
    case Blank => accounts
    case Entry(before, u) => AllUndone(Undone(accounts, u), before)
  }

  function Exist(c: Changes, a: Addr): Changes {
    if a in c.accounts then c
    else Changes(c.accounts[a := NEW_ACCOUNT], c.dirty + {a}, Entry(c.journal, Created(a)))
  }

  function WithNonce(c: Changes, a: Addr, nonce: nat): Changes
    requires a in c.accounts
  {
    Changes(c.accounts[a := c.accounts[a].(nonce := nonce)], c.dirty + {a},
            Entry(c.journal, NonceWas(a, c.accounts[a].nonce)))
  }

  function WithBalance(c: Changes, a: Addr, balance: int): Changes
    requires a in c.accounts
  {
    Changes(c.accounts[a := c.accounts[a].(balance := balance)], c.dirty + {a},
            Entry(c.journal, BalanceWas(a, c.accounts[a].balance)))
  }

  /** Adding nothing to an empty account still marks it. */
  function AddBalance(c: Changes, a: Addr, amount: nat): Changes {
    var d := Exist(c, a);
    if amount > 0 then WithBalance(d, a, d.accounts[a].balance + amount)
    else if Empty(d.accounts[a]) then d.(dirty := d.dirty + {a})
    else d
  }

  function SubBalance(c: Changes, a: Addr, amount: nat): Changes {
    var d := Exist(c, a);
    if amount > 0 then WithBalance(d, a, d.accounts[a].balance - amount) else d
  }

  /** Not journalled. */
  function AddContribution(c: Changes, a: Addr, amount: nat): Changes {
    var d := Exist(c, a);
    d.(accounts := d.accounts[a := d.accounts[a].(contribution := d.accounts[a].contribution + amount)],
       dirty := d.dirty + {a})
  }

  /** Not journalled. */
  function WithRecords(c: Changes, a: Addr, records: seq<nat>): Changes
    requires a in c.accounts
  {
    c.(accounts := c.accounts[a := c.accounts[a].(records := records)], dirty := c.dirty + {a})
  }

  function AddRecord(c: Changes, a: Addr, r: nat): Changes {
    var d := Exist(c, a);
    if r in d.accounts[a].records then d else WithRecords(d, a, d.accounts[a].records + [r])
  }

  predicate FirstAt(s: seq<nat>, r: nat, i: nat) {
    i < |s| && s[i] == r && forall j :: 0 <= j < i ==> s[j] != r
  }

  /** The sequence without the first occurrence, unless that is at the very front. */
  function WithoutLater(s: seq<nat>, r: nat): seq<nat> {
    if i: nat :| 0 < i < |s| && FirstAt(s, r, i) then s[..i] + s[i + 1..] else s
  }

  function RemoveRecord(c: Changes, a: Addr, r: nat): Changes {
    var d := Exist(c, a);
    var left := WithoutLater(d.accounts[a].records, r);
    if left == d.accounts[a].records then d else WithRecords(d, a, left)
  }

  // ---------------------------------------------------------------------------
  // What every change keeps
  // ---------------------------------------------------------------------------

  /** Accounts that are not dirty are as they were. */
  ghost predicate Local(was: Accounts, c: Changes) {
    forall a {:trigger SameAccount(was, c.accounts, a)} :: a !in c.dirty ==> SameAccount(was, c.accounts, a)
  }

  ghost predicate SameAccount(m: Accounts, n: Accounts, a: Addr) {
    if a in m then a in n && n[a] == m[a] else a !in n
  }

  /** `d` differs from `c` at most in account `a`, which it marks, or not at all. */
  ghost predicate ChangesOnly(c: Changes, d: Changes, a: Addr) {
    c.dirty <= d.dirty && (d.accounts == c.accounts || (a in d.dirty && d.accounts - {a} == c.accounts - {a}))
  }

  lemma LocalStep(was: Accounts, c: Changes, d: Changes, a: Addr)
    requires Local(was, c) && ChangesOnly(c, d, a)
    ensures Local(was, d)
  {
    forall b | b !in d.dirty ensures SameAccount(was, d.accounts, b) {
      assert SameAccount(was, c.accounts, b);
      if d.accounts != c.accounts {
        assert b in c.accounts <==> b in c.accounts - {a};
        assert b in d.accounts <==> b in d.accounts - {a};
      }
    }
  }

  /** The journal leads back to where the transaction started. */
  ghost predicate Undoable(was: Accounts, c: Changes) {
    AllUndone(c.accounts, c.journal) == was
  }

  lemma ExistKeeps(was: Accounts, c: Changes, a: Addr)
    ensures Local(was, c) ==> Local(was, Exist(c, a))
    ensures Undoable(was, c) ==> Undoable(was, Exist(c, a))
  {
    if a !in c.accounts {
      assert c.accounts[a := NEW_ACCOUNT] - {a} == c.accounts;
    }
    if Local(was, c) {
      assert c.accounts[a := NEW_ACCOUNT] - {a} == c.accounts - {a};
      LocalStep(was, c, Exist(c, a), a);
    }
  }

  lemma WithNonceKeeps(was: Accounts, c: Changes, a: Addr, nonce: nat)
    requires a in c.accounts
    ensures Local(was, c) ==> Local(was, WithNonce(c, a, nonce))
    ensures Undoable(was, c) ==> Undoable(was, WithNonce(c, a, nonce))
  {
    var d := WithNonce(c, a, nonce);
    assert Undone(d.accounts, NonceWas(a, c.accounts[a].nonce)) == c.accounts;
    if Local(was, c) {
      assert d.accounts - {a} == c.accounts - {a};
      LocalStep(was, c, d, a);
    }
  }

  lemma UpdateKeeps(was: Accounts, c: Changes, d: Changes, a: Addr)
    requires Local(was, c) && a in c.accounts && a in d.accounts && d.accounts == c.accounts[a := d.accounts[a]]
    requires c.dirty <= d.dirty && (d.accounts == c.accounts || a in d.dirty)
    ensures Local(was, d)
  {
    assert c.accounts[a := d.accounts[a]] - {a} == c.accounts - {a};
    LocalStep(was, c, d, a);
  }

  lemma AddBalanceKeeps(was: Accounts, c: Changes, a: Addr, amount: nat)
    requires Local(was, c)
    ensures Local(was, AddBalance(c, a, amount))
  {
    ExistKeeps(was, c, a);
    UpdateKeeps(was, Exist(c, a), AddBalance(c, a, amount), a);
  }

  lemma SubBalanceKeeps(was: Accounts, c: Changes, a: Addr, amount: nat)
    requires Local(was, c)
    ensures Local(was, SubBalance(c, a, amount))
  {
    ExistKeeps(was, c, a);
    UpdateKeeps(was, Exist(c, a), SubBalance(c, a, amount), a);
  }

  lemma AddContributionKeeps(was: Accounts, c: Changes, a: Addr, amount: nat)
    requires Local(was, c)
    ensures Local(was, AddContribution(c, a, amount))
  {
    ExistKeeps(was, c, a);
    UpdateKeeps(was, Exist(c, a), AddContribution(c, a, amount), a);
  }

  lemma AddRecordKeeps(was: Accounts, c: Changes, a: Addr, r: nat)
    requires Local(was, c)
    ensures Local(was, AddRecord(c, a, r)) && Local(was, RemoveRecord(c, a, r))
  {
    ExistKeeps(was, c, a);
    UpdateKeeps(was, Exist(c, a), AddRecord(c, a, r), a);
    UpdateKeeps(was, Exist(c, a), RemoveRecord(c, a, r), a);
  }

  // ---------------------------------------------------------------------------
  // Transactions
  // ---------------------------------------------------------------------------

  /** Everything the state roots cover. */
  datatype Core = Core(accounts: Accounts, records: map<RecordHash, Record>, candidates: set<Addr>)

  /** A transaction's effect before it is finalised or reverted, and its error if it failed. */
  datatype Effect = Effect(changes: Changes, records: map<RecordHash, Record>, candidates: set<Addr>,
                           error: Option<Error>)

  function Begin(accounts: Accounts): Changes {
    Changes(accounts, {}, Blank)
  }

  /** Makes sure the sender exists and compares its nonce. */
  function PreCheck(accounts: Accounts, tx: Tx): (Changes, Option<Error>) {
    var c := Exist(Begin(accounts), tx.sender);
    var nonce := c.accounts[tx.sender].nonce;
    (c, if nonce < tx.nonce then Some(NonceTooHigh) else if nonce > tx.nonce then Some(NonceTooLow) else None)
  }

  /** A transfer of value: recipient and nonce are changed before the balance is looked at. */
  function Transition(accounts: Accounts, tx: Tx): (Changes, Option<Error>) {
    var (c, err) := PreCheck(accounts, tx);
    if err.Some? then (c, err) else
    var e := Reserve(c, tx);
    if e.accounts[tx.sender].balance < tx.value then (e, Some(InsufficientBalance)) else (Pay(e, tx), None)
  }

  /** What a transfer changes before it can fail for want of balance. */
  function Reserve(c: Changes, tx: Tx): (r: Changes)
    requires tx.sender in c.accounts
    ensures tx.sender in r.accounts
  {
    WithNonce(if tx.to.Some? then Exist(c, tx.to.value) else c, tx.sender, tx.nonce + 1)
  }

  function Pay(e: Changes, tx: Tx): Changes {
    var recipient := if tx.to.Some? then tx.to.value else 0;
    AddBalance(SubBalance(Exist(e, recipient), tx.sender, tx.value), recipient, tx.value)
  }

  function OwnerOf(records: map<RecordHash, Record>, r: RecordHash): Addr {
    if r in records then records[r].owner else 0
  }

  function StatusOf(records: map<RecordHash, Record>, r: RecordHash): nat {
    if r in records then records[r].status else MISSING_STATUS
  }

  function Confirm(d: Changes, tx: Tx): Changes {
    AddContribution(AddRecord(d, tx.sender, tx.data), tx.sender, 2_000_000_000_000_000_000)
  }

  function PassOn(d: Changes, tx: Tx, to: Addr): Changes {
    AddContribution(RemoveRecord(AddRecord(if tx.to.Some? then Exist(d, to) else d, to, tx.hash), tx.sender, tx.hash),
                    tx.sender, 1_000_000_000_000_000_000)
  }

  /** What the kind of data transaction does about the record. */
  function ChangeRecord(d: Changes, records: map<RecordHash, Record>, tx: Tx): (Changes, map<RecordHash, Record>,
                        Option<Error>) {
    match tx.kind
    case ConfirmationData =>
      if tx.data in records then (d, records, Some(RecordExists))
      else (Confirm(d, tx), records[tx.data := Record(tx.sender, tx.sender, 0, [tx.hash])], None)
    case TransferData =>
      if OwnerOf(records, tx.data) != tx.sender then (d, records, Some(NotOwner))
      else if StatusOf(records, tx.data) != 0 then (d, records, Some(BadStatus))
      else
        var to := if tx.to.Some? then tx.to.value else 0;
        (PassOn(d, tx, to),
         records[tx.data := records[tx.data].(origin := to, txs := records[tx.data].txs + [tx.hash])], None)
    case _ => (d, records, None)
  }

  /** Recording data, or passing a record on: the nonce is changed before the records are looked at. */
  function ApplyData(core: Core, tx: Tx): (Changes, map<RecordHash, Record>, Option<Error>) {
    var (c, err) := PreCheck(core.accounts, tx);
    if err.Some? then (c, core.records, err) else ChangeRecord(WithNonce(c, tx.sender, tx.nonce + 1), core.records, tx)
  }

  /** The effect of a transaction, successful or not. */
  function Apply(core: Core, tx: Tx): Effect {
    if !tx.wellFormed then Effect(Begin(core.accounts), core.records, core.candidates, Some(Malformed)) else
    match tx.kind
    case Binary =>
      var (c, err) := Transition(core.accounts, tx);
      Effect(c, core.records, core.candidates, err)
    case LoginCandidate => Effect(Begin(core.accounts), core.records, core.candidates + {tx.sender}, None)
    case LogoutCandidate => Effect(Begin(core.accounts), core.records, core.candidates - {tx.sender}, None)
    case _ =>
      var (c, records, err) := ApplyData(core, tx);
      Effect(c, records, core.candidates, err)
  }

  lemma PreCheckKeeps(accounts: Accounts, tx: Tx)
    ensures var c := PreCheck(accounts, tx).0;
            tx.sender in c.accounts && Local(accounts, c) && Undoable(accounts, c)
  {
    ExistKeeps(accounts, Begin(accounts), tx.sender);
  }

  lemma ReserveKeeps(was: Accounts, c: Changes, tx: Tx)
    requires tx.sender in c.accounts && Local(was, c) && Undoable(was, c)
    ensures Local(was, Reserve(c, tx)) && Undoable(was, Reserve(c, tx))
  {
    var d := if tx.to.Some? then Exist(c, tx.to.value) else c;
    if tx.to.Some? { ExistKeeps(was, c, tx.to.value); }
    WithNonceKeeps(was, d, tx.sender, tx.nonce + 1);
  }

  lemma PayKeeps(was: Accounts, e: Changes, tx: Tx)
    requires Local(was, e)
    ensures Local(was, Pay(e, tx))
  {
    var recipient := if tx.to.Some? then tx.to.value else 0;
    ExistKeeps(was, e, recipient);
    SubBalanceKeeps(was, Exist(e, recipient), tx.sender, tx.value);
    AddBalanceKeeps(was, SubBalance(Exist(e, recipient), tx.sender, tx.value), recipient, tx.value);
  }

  lemma TransitionKeeps(accounts: Accounts, tx: Tx)
    ensures var r := Transition(accounts, tx);
            Local(accounts, r.0) && (r.1.Some? ==> Undoable(accounts, r.0))
  {
    PreCheckKeeps(accounts, tx);
    var c := PreCheck(accounts, tx).0;
    ReserveKeeps(accounts, c, tx);
    PayKeeps(accounts, Reserve(c, tx), tx);
  }

  lemma ConfirmKeeps(was: Accounts, d: Changes, tx: Tx)
    requires Local(was, d)
    ensures Local(was, Confirm(d, tx))
  {
    AddRecordKeeps(was, d, tx.sender, tx.data);
    AddContributionKeeps(was, AddRecord(d, tx.sender, tx.data), tx.sender, 2_000_000_000_000_000_000);
  }

  lemma PassOnKeeps(was: Accounts, d: Changes, tx: Tx, to: Addr)
    requires Local(was, d)
    ensures Local(was, PassOn(d, tx, to))
  {
    var e := if tx.to.Some? then Exist(d, to) else d;
    ExistKeeps(was, d, to);
    AddRecordKeeps(was, e, to, tx.hash);
    AddRecordKeeps(was, AddRecord(e, to, tx.hash), tx.sender, tx.hash);
    AddContributionKeeps(was, RemoveRecord(AddRecord(e, to, tx.hash), tx.sender, tx.hash), tx.sender,
                         1_000_000_000_000_000_000);
  }

  lemma ChangeRecordKeeps(was: Accounts, d: Changes, records: map<RecordHash, Record>, tx: Tx)
    requires Local(was, d)
    ensures var r := ChangeRecord(d, records, tx);
            Local(was, r.0) && (r.2.Some? ==> r.0 == d && r.1 == records)
  {
    ConfirmKeeps(was, d, tx);
    PassOnKeeps(was, d, tx, if tx.to.Some? then tx.to.value else 0);
  }

  lemma ApplyDataKeeps(core: Core, tx: Tx)
    ensures var r := ApplyData(core, tx);
            Local(core.accounts, r.0) && (r.2.Some? ==> Undoable(core.accounts, r.0) && r.1 == core.records)
  {
    PreCheckKeeps(core.accounts, tx);
    var c := PreCheck(core.accounts, tx).0;
    WithNonceKeeps(core.accounts, c, tx.sender, tx.nonce + 1);
    DataOutcome(core.accounts, c, WithNonce(c, tx.sender, tx.nonce + 1), core.records, tx,
                PreCheck(core.accounts, tx).1, ApplyData(core, tx));
  }

  lemma DataOutcome(was: Accounts, c: Changes, d: Changes, records: map<RecordHash, Record>, tx: Tx, err: Option<Error>,
                    r: (Changes, map<RecordHash, Record>, Option<Error>))
    requires Local(was, c) && Undoable(was, c) && Local(was, d) && Undoable(was, d)
    requires r == if err.Some? then (c, records, err) else ChangeRecord(d, records, tx)
    ensures Local(was, r.0) && (r.2.Some? ==> Undoable(was, r.0) && r.1 == records)
  {
    ChangeRecordKeeps(was, d, records, tx);
  }

  /**
   A transaction changes no account without marking it, and a failing one, however
   far it got, has journalled all it changed.
   */
  lemma ApplyKeeps(core: Core, tx: Tx)
    ensures var e := Apply(core, tx);
            && Local(core.accounts, e.changes)
            && (e.error.Some? ==> AllUndone(e.changes.accounts, e.changes.journal) == core.accounts
                                  && e.records == core.records && e.candidates == core.candidates)
  {
    TransitionKeeps(core.accounts, tx);
    ApplyDataKeeps(core, tx);
  }

  // ---------------------------------------------------------------------------
  // Finalising
  // ---------------------------------------------------------------------------

  /** Deletes the dirty accounts that are empty, where the rules say so. */
  function Finalised(accounts: Accounts, dirty: set<Addr>, deleteEmpty: bool): Accounts {
    map a | a in accounts && !(deleteEmpty && a in dirty && Empty(accounts[a])) :: accounts[a]
  }

  ghost predicate NoneEmpty(accounts: Accounts) {
    forall a :: a in accounts ==> !Empty(accounts[a])
  }

  /** Without empty accounts before a transaction, only those it marked itself matter for what is deleted after it. */
  lemma FinalisedAgree(was: Accounts, c: Changes, more: set<Addr>, others: set<Addr>, deleteEmpty: bool)
    requires Local(was, c) && (deleteEmpty ==> NoneEmpty(was))
    ensures Finalised(c.accounts, more + c.dirty, deleteEmpty) == Finalised(c.accounts, others + c.dirty, deleteEmpty)
    ensures deleteEmpty ==> NoneEmpty(Finalised(c.accounts, more + c.dirty, deleteEmpty))
  {
    forall a | a in c.accounts && a !in c.dirty ensures deleteEmpty ==> !Empty(c.accounts[a]) {
      assert SameAccount(was, c.accounts, a);
    }
  }
}
