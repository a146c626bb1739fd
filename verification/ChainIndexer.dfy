/**
 The chain indexer.  Sections of the canonical chain are processed while the
 lock is released, so reorg notifications and rewrites of the canonical chain
 can fall between any two header reads.  Each step below is one lock-protected
 region or one header read.
 */
module ChainIndexer {
  import opened ChainTree
  import opened Options

  /** The section being processed: what its first header has to build on, and how far it has come. */
  datatype Job = Idle | Working(section: nat, oldHead: Hash, number: nat, lastHead: Hash)

  datatype Indexer = Indexer(heads: map<int, Hash>, stored: nat, known: nat, cascaded: int, job: Job)

  /** The hash recorded for a section, zero if there is none; there never is one for -1. */
  function SectionHead(heads: map<int, Hash>, section: int): Hash {
    if section in heads then heads[section] else Zero
  }

  /** `to` is reached from `from` by exactly `n` parent links. */
  ghost predicate Reached(from: Hash, to: Hash, n: nat) {
    if n == 0 then to == from else to.Of? && Reached(from, to.block.parent, n - 1)
  }

  lemma {:induction false} ReachedTrans(a: Hash, b: Hash, c: Hash, m: nat, n: nat)
    requires Reached(a, b, m) && Reached(b, c, n)
    ensures Reached(a, c, m + n)
    decreases n
  {
    if n > 0 {
      ReachedTrans(a, b, c.block.parent, m, n - 1);
    }
  }

  // ---------------------------------------------------------------------------
  // Steps
  // ---------------------------------------------------------------------------

  /** Setting the number of valid sections removes the heads of those given up. */
  function WithSections(i: Indexer, sections: nat): Indexer {
    i.(heads := map k | k in i.heads && !(sections <= k < i.stored) :: i.heads[k], stored := sections)
  }

  function AfterReorg(i: Indexer, size: nat, head: nat): Indexer
    requires size > 0
  {
    var changed := head / size;
    var j := i.(known := if changed < i.known then changed else i.known);
    var k := if changed < i.stored then WithSections(j, changed) else j;
    k.(cascaded := if changed * size < k.cascaded then changed * size else k.cascaded)
  }

  function AfterHead(i: Indexer, size: nat, confirms: nat, head: nat): Indexer
    requires size > 0
  {
    if head < confirms || (head + 1 - confirms) / size <= i.known then i else i.(known := (head + 1 - confirms) / size)
  }

  function AfterBegin(i: Indexer, size: nat): Indexer {
    if i.job.Working? || i.known <= i.stored then i else
      var oldHead := if i.stored > 0 then SectionHead(i.heads, i.stored - 1) else Zero;
      i.(job := Working(i.stored, oldHead, i.stored * size, oldHead))
  }

  /** Processing failed: no retry until there is news. */
  function AfterFailure(i: Indexer): Indexer {
    i.(known := i.stored, job := Idle)
  }

  function AfterResetFailure(i: Indexer): Indexer {
    if i.job.Idle? then i else AfterFailure(WithSections(i, 0))
  }

  predicate Finished(i: Indexer, size: nat) {
    i.job.Working? && i.job.number >= (i.job.section + 1) * size
  }

  /** Reads the next header; a missing one, or one that does not build on the last, ends the job. */
  function AfterRead(i: Indexer, size: nat, header: Option<Block>): Indexer {
    if i.job.Idle? || Finished(i, size) then i
    else if header.None? || header.value.parent != i.job.lastHead then AfterFailure(i)
    else i.(job := i.job.(number := i.job.number + 1, lastHead := Of(header.value)))
  }

  /** Commits a finished section, if its predecessor is still the one it was built on. */
  function AfterCommit(i: Indexer, size: nat, ok: bool): Indexer {
    if !Finished(i, size) then i
    else if ok && i.job.oldHead == SectionHead(i.heads, i.job.section - 1) then
      var s := WithSections(i.(heads := i.heads[i.job.section := i.job.lastHead]), i.job.section + 1);
      s.(cascaded := s.stored * size - 1, job := Idle)
    else AfterFailure(i)
  }

  /** What can happen next, to the indexer or around it. */
  datatype Event =
    | Reorg(head: nat)
    | NewHead(head: nat)
    | Begin
    | ResetFails
    | Read(header: Option<Block>)
    | Commit(ok: bool)

  function Next(i: Indexer, size: nat, confirms: nat, e: Event): Indexer
    requires size > 0
  {
    match e
    case Reorg(head) => AfterReorg(i, size, head)
    case NewHead(head) => AfterHead(i, size, confirms, head)
    case Begin => AfterBegin(i, size)
    case ResetFails => AfterResetFailure(i)
    case Read(header) => AfterRead(i, size, header)
    case Commit(ok) => AfterCommit(i, size, ok)
  }

  // ---------------------------------------------------------------------------
  // The invariant
  // ---------------------------------------------------------------------------

  ghost predicate LinkedSection(heads: map<int, Hash>, size: nat, k: int) {
    k in heads && heads[k].Of? && Reached(SectionHead(heads, k - 1), heads[k], size)
  }

  /** Exactly the stored sections have heads, each `size` parent links behind the next. */
  ghost predicate Chained(i: Indexer, size: nat) {
    && (forall k :: k in i.heads ==> 0 <= k < i.stored)
    && (forall k {:trigger LinkedSection(i.heads, size, k)} :: 0 <= k < i.stored ==> LinkedSection(i.heads, size, k))
  }

  /** The job builds on a section head that is recorded as long as nothing before it was given up. */
  ghost predicate JobOk(i: Indexer, size: nat) {
    i.job.Working? ==>
      && i.stored <= i.job.section
      && i.job.section * size <= i.job.number <= (i.job.section + 1) * size
      && Reached(i.job.oldHead, i.job.lastHead, i.job.number - i.job.section * size)
      && (if i.job.section == 0 then i.job.oldHead == Zero else i.job.oldHead.Of?)
      && (i.stored == i.job.section ==> i.job.oldHead == SectionHead(i.heads, i.stored - 1))
  }

  ghost predicate Ok(i: Indexer, size: nat) {
    Chained(i, size) && JobOk(i, size)
  }

  /** Giving up sections keeps the chain of those before. */
  lemma WithSectionsKeeps(i: Indexer, size: nat, sections: nat)
    requires Ok(i, size) && sections <= i.stored
    ensures Ok(WithSections(i, sections), size)
    ensures forall k :: k < sections ==> SectionHead(WithSections(i, sections).heads, k) == SectionHead(i.heads, k)
  {
    var j := WithSections(i, sections);
    forall k | 0 <= k < j.stored ensures LinkedSection(j.heads, size, k) {
      assert LinkedSection(i.heads, size, k);
    }
  }

  lemma BeginKeeps(i: Indexer, size: nat)
    requires Ok(i, size)
    ensures Ok(AfterBegin(i, size), size)
  {
    if i.job.Idle? && i.known > i.stored && i.stored > 0 {
      assert LinkedSection(i.heads, size, i.stored - 1);
    }
    assert i.stored * size <= (i.stored + 1) * size;
  }

  /** The check before a commit: the predecessor is unchanged only if no section was given up meanwhile. */
  lemma CommitKeeps(i: Indexer, size: nat, ok: bool)
    requires Ok(i, size) && size > 0
    ensures Ok(AfterCommit(i, size, ok), size)
    ensures Finished(i, size) && ok && i.job.oldHead == SectionHead(i.heads, i.job.section - 1) ==>
              i.stored == i.job.section
  {
    if Finished(i, size) && ok && i.job.oldHead == SectionHead(i.heads, i.job.section - 1) {
      var j, s := AfterCommit(i, size, ok), i.job.section;
      assert i.job.number - s * size == size;
      assert i.stored == s;
      forall k | 0 <= k < j.stored ensures LinkedSection(j.heads, size, k) {
        if k < s {
          assert LinkedSection(i.heads, size, k);
        } else {
          assert SectionHead(j.heads, s - 1) == SectionHead(i.heads, s - 1);
        }
      }
    }
  }

  lemma NextKeeps(i: Indexer, size: nat, confirms: nat, e: Event)
    requires Ok(i, size) && size > 0
    ensures Ok(Next(i, size, confirms, e), size)
  {
    match e
    case Reorg(head) => ReorgKeeps(i, size, head);
    case NewHead(head) => SameHeads(i, AfterHead(i, size, confirms, head), size);
    case Begin => BeginKeeps(i, size);
    case ResetFails => ResetFailureKeeps(i, size);
    case Read(header) => ReadKeeps(i, size, header);
    case Commit(ok) => CommitKeeps(i, size, ok);
  }

  lemma ReorgKeeps(i: Indexer, size: nat, head: nat)
    requires Ok(i, size) && size > 0
    ensures Ok(AfterReorg(i, size, head), size)
  {
    var changed, j := head / size, AfterReorg(i, size, head);
    if changed < i.stored {
      WithSectionsKeeps(i, size, changed);
      SameHeads(WithSections(i, changed), j, size);
    } else {
      SameHeads(i, j, size);
    }
  }

  lemma ResetFailureKeeps(i: Indexer, size: nat)
    requires Ok(i, size)
    ensures Ok(AfterResetFailure(i), size)
  {
    WithSectionsKeeps(i, size, 0);
  }

  lemma ReadKeeps(i: Indexer, size: nat, header: Option<Block>)
    requires Ok(i, size)
    ensures Ok(AfterRead(i, size, header), size)
  {
    SameHeads(i, AfterRead(i, size, header), size);
  }

  lemma SameHeads(i: Indexer, j: Indexer, size: nat)
    requires i.heads == j.heads && i.stored == j.stored
    ensures Chained(i, size) <==> Chained(j, size)
  {
    if Chained(i, size) {
      forall k | 0 <= k < j.stored ensures LinkedSection(j.heads, size, k) { assert LinkedSection(i.heads, size, k); }
    }
    if Chained(j, size) {
      forall k | 0 <= k < i.stored ensures LinkedSection(i.heads, size, k) { assert LinkedSection(j.heads, size, k); }
    }
  }

  function Start(): Indexer {
    Indexer(map[], 0, 0, 0, Idle)
  }

  function After(size: nat, confirms: nat, events: seq<Event>): Indexer
    requires size > 0
  {
    if events == [] then Start()
    else Next(After(size, confirms, events[..|events| - 1]), size, confirms, events[|events| - 1])
  }

  lemma {:induction false} RunOk(size: nat, confirms: nat, events: seq<Event>)
    requires size > 0
    ensures Ok(After(size, confirms, events), size)
  {
    if events != [] {
      RunOk(size, confirms, events[..|events| - 1]);
      NextKeeps(After(size, confirms, events[..|events| - 1]), size, confirms, events[|events| - 1]);
    }
  }

  lemma {:induction false} ChainFromStart(i: Indexer, size: nat, k: nat)
    requires Chained(i, size) && k < i.stored
    ensures k in i.heads && Reached(SectionHead(i.heads, k - 1), i.heads[k], size) &&
              Reached(Zero, i.heads[k], (k + 1) * size)
  {
    assert LinkedSection(i.heads, size, k);
    if k > 0 {
      ChainFromStart(i, size, k - 1);
      ReachedTrans(Zero, i.heads[k - 1], i.heads[k], k * size, size);
      assert k * size + size == (k + 1) * size;
    }
  }

  /**
   Any interleaving of reorg notifications, new heads and arbitrary header reads
   with section processing leaves the stored sections as one parent-linked chain:
   section k's head is reached from before genesis by (k + 1) * size links, and
   from the head before it by exactly `size`; no head exists at or above the
   stored count.
   */
  lemma RunIsChained(size: nat, confirms: nat, events: seq<Event>, k: nat)
    requires size > 0
    ensures var i := After(size, confirms, events);
            if k < i.stored then
              && k in i.heads
              && Reached(SectionHead(i.heads, k - 1), i.heads[k], size)
              && Reached(Zero, i.heads[k], (k + 1) * size)
            else k !in i.heads
  {
    var i := After(size, confirms, events);
    RunOk(size, confirms, events);
    if k < i.stored {
      ChainFromStart(i, size, k);
    }
  }

  // ---------------------------------------------------------------------------
  // Which reorgs a section being processed notices
  // ---------------------------------------------------------------------------

  /** What can happen while a section is processed: notifications, header reads, a failing backend. */
  predicate During(e: Event) {
    !e.Begin? && !e.Commit?
  }

  /** The state after such events. */
  function Notified(i: Indexer, size: nat, confirms: nat, ns: seq<Event>): Indexer
    requires size > 0
    decreases |ns|
  {
    if ns == [] then i else Notified(Next(i, size, confirms, ns[0]), size, confirms, ns[1..])
  }

  /** None of the notifications is of a reorg that starts before the section. */
  ghost predicate NoneBefore(ns: seq<Event>, size: nat, section: nat)
    requires size > 0
  {
    forall k :: 0 <= k < |ns| && ns[k].Reorg? ==> section <= ns[k].head / size
  }

  /** A job that has ended stays so until the next begins. */
  lemma {:induction false} EndedStays(i: Indexer, size: nat, confirms: nat, ns: seq<Event>)
    requires size > 0 && i.job.Idle? && forall k :: 0 <= k < |ns| ==> During(ns[k])
    ensures Notified(i, size, confirms, ns).job.Idle?
    decreases |ns|
  {
    if ns != [] {
      EndedStays(Next(i, size, confirms, ns[0]), size, confirms, ns[1..]);
    }
  }

  lemma {:induction false} NotifiedKeeps(i: Indexer, size: nat, confirms: nat, ns: seq<Event>)
    requires Ok(i, size) && size > 0 && i.job.Working? && forall k :: 0 <= k < |ns| ==> During(ns[k])
    ensures var j := Notified(i, size, confirms, ns);
            j.job.Working? ==>
              && Ok(j, size) && j.job.section == i.job.section
              && (j.stored == i.job.section <==> i.stored == i.job.section && NoneBefore(ns, size, i.job.section))
    decreases |ns|
  {
    if ns != [] {
      var n := Next(i, size, confirms, ns[0]);
      NextKeeps(i, size, confirms, ns[0]);
      if n.job.Idle? {
        EndedStays(n, size, confirms, ns[1..]);
      } else {
        NotifiedKeeps(n, size, confirms, ns[1..]);
        NoneBeforeFirst(ns, size, i.job.section);
      }
    }
  }

  lemma NoneBeforeFirst(ns: seq<Event>, size: nat, section: nat)
    requires size > 0 && ns != []
    ensures NoneBefore(ns, size, section) <==>
              (ns[0].Reorg? ==> section <= ns[0].head / size) && NoneBefore(ns[1..], size, section)
  {
    if (ns[0].Reorg? ==> section <= ns[0].head / size) && NoneBefore(ns[1..], size, section) {
      forall k | 0 <= k < |ns| && ns[k].Reorg? ensures section <= ns[k].head / size {
        assert k > 0 ==> ns[k] == ns[1..][k - 1];
      }
    }
    if NoneBefore(ns, size, section) {
      forall k | 0 <= k < |ns[1..]| && ns[1..][k].Reorg? ensures section <= ns[1..][k].head / size {
        assert ns[1..][k] == ns[k + 1];
      }
    }
  }

  /**
   The check before a commit looks at the predecessor only.  Whatever is notified
   while a section is processed, between any two header reads or after the last,
   a section read to its end is stored if and only if no reorg starts before it:
   one that starts inside it is not noticed.
   */
  lemma StoredIffNoneBefore(i: Indexer, size: nat, confirms: nat, ns: seq<Event>)
    requires Ok(i, size) && size > 0 && i.job.Working? && i.stored == i.job.section
    requires forall k :: 0 <= k < |ns| ==> During(ns[k])
    ensures var n := Notified(i, size, confirms, ns);
            var j := Next(n, size, confirms, Commit(true));
            if !Finished(n, size) then j == n
            else if NoneBefore(ns, size, i.job.section) then
              j.stored == i.stored + 1 && SectionHead(j.heads, i.stored) == n.job.lastHead
            else j.stored < i.stored
  {
    var n := Notified(i, size, confirms, ns);
    NotifiedKeeps(i, size, confirms, ns);
    if Finished(n, size) {
      CommitKeeps(n, size, true);
    }
  }

  /** A single reorg: noticed if and only if it starts before the section. */
  lemma ReorgInsideSection(i: Indexer, size: nat, confirms: nat, head: nat)
    requires Ok(i, size) && size > 0 && Finished(i, size) && i.stored == i.job.section
    ensures var j := Next(Next(i, size, confirms, Reorg(head)), size, confirms, Commit(true));
            && (j.stored == i.stored + 1 <==> i.job.section <= head / size)
            && (head / size == i.stored ==> j.known <= i.stored && j.heads == i.heads[i.stored := i.job.lastHead])
  {
    var r := Next(i, size, confirms, Reorg(head));
    NextKeeps(i, size, confirms, Reorg(head));
    CommitKeeps(r, size, true);
  }

  lemma AfterOne(size: nat, confirms: nat, events: seq<Event>, e: Event)
    requires size > 0
    ensures After(size, confirms, events + [e]) == Next(After(size, confirms, events), size, confirms, e)
  {
    assert (events + [e])[..|events|] == events;
  }

  /**
   From the start: blocks 0 and 1 make up the first section, block 1 is replaced
   after both were read, and the section is stored with the replaced block as its
   head, while no section is known to be complete.
   */
  lemma StaleSectionStored() returns (events: seq<Event>, stale: Block)
    ensures stale.number == 1 && |events| > 2 && events[|events| - 2] == Reorg(0)
    ensures After(2, 0, events) == Indexer(map[0 := Of(stale)], 1, 0, 1, Idle)
  {
    var genesis := Block(Zero, 0, 1, [], 0);
    stale := Block(Of(genesis), 1, 1, [], 0);
    var a := [NewHead(1)];
    var b := a + [Begin];
    var c := b + [Read(Some(genesis))];
    var d := c + [Read(Some(stale))];
    var e := d + [Reorg(0)];
    events := e + [Commit(true)];
    assert After(2, 0, []) == Start() && [] + a == a;
    AfterOne(2, 0, [], NewHead(1));
    AfterOne(2, 0, a, Begin);
    assert After(2, 0, b) == Indexer(map[], 0, 1, 0, Working(0, Zero, 0, Zero));
    AfterOne(2, 0, b, Read(Some(genesis)));
    AfterOne(2, 0, c, Read(Some(stale)));
    assert After(2, 0, d) == Indexer(map[], 0, 1, 0, Working(0, Zero, 2, Of(stale)));
    AfterOne(2, 0, d, Reorg(0));
    AfterOne(2, 0, e, Commit(true));
  }

  // ---------------------------------------------------------------------------
  // The indexer itself
  // ---------------------------------------------------------------------------

  class ChainIndexer {
    const sectionSize: nat
    const confirmsReq: nat
    var heads: map<int, Hash>
    var storedSections: nat
    var knownSections: nat
    var cascadedHead: int
    var job: Job

    ghost function State(): Indexer
      reads this
    {
      Indexer(heads, storedSections, knownSections, cascadedHead, job)
    }

    ghost predicate Valid()
      reads this
    {
      sectionSize > 0 && Ok(State(), sectionSize)
    }

    constructor (section: nat, confirm: nat)
      requires section > 0
      ensures Valid() && State() == Start() && sectionSize == section && confirmsReq == confirm
    {
      sectionSize, confirmsReq := section, confirm;
      heads, storedSections, knownSections, cascadedHead, job := map[], 0, 0, 0, Idle;
    }

    /** Removes the heads of the sections given up, one by one, and records the count. */
    method SetValidSections(sections: nat)
      modifies this`heads, this`storedSections
      ensures State() == WithSections(old(State()), sections)
    {
      while storedSections > sections
        invariant storedSections <= old(storedSections) &&
                    (storedSections == old(storedSections) || storedSections >= sections)
        invariant heads == map k | k in old(heads) && !(storedSections <= k < old(storedSections)) :: old(heads)[k]
      {
        storedSections := storedSections - 1;
        heads := heads - {storedSections};
      }
      storedSections := sections;
    }

    /** A notification of a new chain head, or of a reorg down to a block. */
    method HandleHead(head: nat, reorg: bool)
      requires Valid()
      modifies this
      ensures Valid()
      ensures State() == Next(old(State()), sectionSize, confirmsReq, if reorg then Reorg(head) else NewHead(head))
    {
      NextKeeps(State(), sectionSize, confirmsReq, if reorg then Reorg(head) else NewHead(head));
      if reorg {
        var changed := head / sectionSize;
        if changed < knownSections {
          knownSections := changed;
        }
        if changed < storedSections {
          SetValidSections(changed);
        }
        if changed * sectionSize < cascadedHead {
          cascadedHead := changed * sectionSize;
        }
        return;
      }
      if head >= confirmsReq {
        var sections := (head + 1 - confirmsReq) / sectionSize;
        if sections > knownSections {
          knownSections := sections;
        }
      }
    }

    /** The start of an update: remembers the section and its predecessor's head before the lock is released. */
    method BeginUpdate()
      requires Valid()
      modifies this`job
      ensures Valid() && State() == Next(old(State()), sectionSize, confirmsReq, Begin)
    {
      NextKeeps(State(), sectionSize, confirmsReq, Begin);
      if job.Idle? && knownSections > storedSections {
        var oldHead := if storedSections > 0 then SectionHead(heads, storedSections - 1) else Zero;
        job := Working(storedSections, oldHead, storedSections * sectionSize, oldHead);
      }
    }

    method Fail()
      modifies this`knownSections, this`job
      ensures State() == AfterFailure(old(State()))
    {
      knownSections, job := storedSections, Idle;
    }

    /** The backend refuses to start over: everything stored is given up. */
    method FailReset()
      requires Valid()
      modifies this
      ensures Valid() && State() == Next(old(State()), sectionSize, confirmsReq, ResetFails)
    {
      NextKeeps(State(), sectionSize, confirmsReq, ResetFails);
      if job.Working? {
        SetValidSections(0);
        Fail();
      }
    }

    /** Processes the header now canonical at the next number, whatever the chain has become meanwhile. */
    method ProcessHeader(header: Option<Block>)
      requires Valid()
      modifies this
      ensures Valid() && State() == Next(old(State()), sectionSize, confirmsReq, Read(header))
    {
      NextKeeps(State(), sectionSize, confirmsReq, Read(header));
      if job.Working? && job.number < (job.section + 1) * sectionSize {
        if header.None? || header.value.parent != job.lastHead {
          Fail();
        } else {
          job := job.(number := job.number + 1, lastHead := Of(header.value));
        }
      }
    }

    /** The end of an update: records the section unless its predecessor has changed. */
    method FinishUpdate(ok: bool)
      requires Valid()
      modifies this
      ensures Valid() && State() == Next(old(State()), sectionSize, confirmsReq, Commit(ok))
    {
      NextKeeps(State(), sectionSize, confirmsReq, Commit(ok));
      if job.Working? && job.number >= (job.section + 1) * sectionSize {
        if ok && job.oldHead == SectionHead(heads, job.section - 1) {
          heads := heads[job.section := job.lastHead];
          SetValidSections(job.section + 1);
          cascadedHead := storedSections * sectionSize - 1;
          job := Idle;
        } else {
          Fail();
        }
      }
    }
  }
}
