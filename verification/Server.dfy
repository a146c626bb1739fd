/**
 The scheduling part of the peer-to-peer server's main loop: dial tasks are
 started up to a maximum, the rest waits in a queue, and peers come and go.
 */
module Server {
  import opened Dial
  import opened Options
  import opened Protocols

  const MAX_ACTIVE_DIAL_TASKS := 16

  datatype Refusal = UselessPeer | TooManyPeers | AlreadyConnected | Self

  /** Each node's last finished dial is still in the history, or long enough ago. */
  ghost predicate Remembered(hist: seq<PastDial>, done: map<Id, int>, clock: int) {
    forall id :: id in done ==>
      done[id] + HISTORY_EXPIRATION < clock || PastDial(id, done[id] + HISTORY_EXPIRATION) in multiset(hist)
  }

  /** How many queued tasks there is room to start. */
  function Startable(running: seq<Task>, queued: seq<Task>): (k: nat)
    ensures k <= |queued| && (|running| <= MAX_ACTIVE_DIAL_TASKS ==> |running| + k <= MAX_ACTIVE_DIAL_TASKS)
    ensures k == |queued| || |running| + k >= MAX_ACTIVE_DIAL_TASKS
  {
    if |running| >= MAX_ACTIVE_DIAL_TASKS then 0
    else if |running| + |queued| <= MAX_ACTIVE_DIAL_TASKS then |queued|
    else MAX_ACTIVE_DIAL_TASKS - |running|
  }

  ghost predicate UnconnectedAt(ts: seq<Task>, peers: map<Id, Flag>, i: int) {
    0 <= i < |ts| && ts[i].DialTask? ==> ts[i].id !in peers
  }

  /** No dial goes to a connected node. */
  ghost predicate Unconnected(ts: seq<Task>, peers: map<Id, Flag>) {
    forall i {:trigger UnconnectedAt(ts, peers, i)} :: UnconnectedAt(ts, peers, i)
  }

  /** Every static node that may be dialed is being dialed. */
  ghost predicate Dialed(statics: map<Id, Node>, dial: DialState, peers: map<Id, Flag>)
    reads dial
  {
    forall id :: id in statics && dial.Dialable(statics[id], peers) ==> id in dial.dialing
  }

  ghost predicate Fewer(was: seq<PastDial>, hist: seq<PastDial>) {
    forall d :: d in multiset(hist) ==> d in multiset(was)
  }

  /** A timer is made only by itself, and a lookup only while more dynamic dials are needed. */
  ghost predicate Needed(made: seq<Task>, dial: DialState, peers: map<Id, Flag>)
    reads dial
  {
    && (forall t :: t in made && t.WaitTask? ==> made == [t])
    && (DiscoverTask in made ==> CountDyn(peers) + CountDyn(dial.dialing) < dial.maxDynDials)
  }

  /** Long enough after the node's last finished dial. */
  ghost predicate RestedAt(ts: seq<Task>, done: map<Id, int>, now: int, i: int) {
    0 <= i < |ts| && ts[i].DialTask? && ts[i].id in done ==> done[ts[i].id] + HISTORY_EXPIRATION < now
  }

  ghost predicate Rested(ts: seq<Task>, done: map<Id, int>, now: int) {
    forall i {:trigger RestedAt(ts, done, now, i)} :: RestedAt(ts, done, now, i)
  }

  lemma RestedIfForgotten(ts: seq<Task>, was: seq<PastDial>, hist: seq<PastDial>, done: map<Id, int>, clock: int,
                          now: int)
    requires Remembered(was, done, clock) && clock <= now
    requires forall d :: d in multiset(hist) <==> d in multiset(was) && now <= d.exp
    requires forall i :: 0 <= i < |ts| && ts[i].DialTask? ==> !Recent(hist, ts[i].id)
    ensures Rested(ts, done, now) && Remembered(hist, done, now)
  {
    forall id | id in done && done[id] + HISTORY_EXPIRATION >= now
      ensures PastDial(id, done[id] + HISTORY_EXPIRATION) in multiset(hist) && Recent(hist, id)
    {
      var d := PastDial(id, done[id] + HISTORY_EXPIRATION);
      assert d in multiset(hist);
      var i :| 0 <= i < |hist| && hist[i] == d;
    }
  }

  lemma UnionBound(a: set<Id>, b: set<Id>)
    ensures |a + b| <= |a| + |b|
  {
    assert a + b == a + (b - a);
    assert |b - a| <= |b| by { assert b == (b - a) + (b * a); }
  }

  class Server {
    const dial: DialState
    const maxPeers: nat
    const protocols: seq<Protocol>
    var peers: map<Id, Flag>
    var running: seq<Task>
    var queued: seq<Task>
    /** The time of the last step, and when each node was last dialed to the end. */
    ghost var clock: int
    ghost var done: map<Id, int>

    ghost predicate Valid()
      reads this, dial
    {
      && dial.Valid()
      && Tracks(dial.dialing, running + queued)
      && |running| <= MAX_ACTIVE_DIAL_TASKS
      && |DynOf(peers) + DynOf(dial.dialing)| <= dial.maxDynDials
      && Remembered(dial.hist, done, clock) && Rested(queued, done, clock)
    }

    constructor (dial: DialState, maxPeers: nat, protocols: seq<Protocol>, now: int)
      requires dial.Valid() && dial.dialing == map[] && dial.hist == []
      ensures Valid() && this.dial == dial && this.maxPeers == maxPeers && this.protocols == protocols
      ensures peers == map[] && running == queued == [] && done == map[] && clock == now
    {
      this.dial, this.maxPeers, this.protocols := dial, maxPeers, protocols;
      peers, running, queued, clock, done := map[], [], [], now, map[];
      new;
      assert running + queued == [];
      assert DynOf(peers) + DynOf(dial.dialing) == {};
    }

    /** Starts queued tasks while there is room. */
    method StartQueued() returns (started: seq<Task>)
      requires |running| <= MAX_ACTIVE_DIAL_TASKS
      modifies this`running, this`queued
      ensures started == old(queued)[..Startable(old(running), old(queued))] && running == old(running) + started
      ensures old(queued) == started + queued && |running| <= MAX_ACTIVE_DIAL_TASKS
      ensures queued == [] || |running| == MAX_ACTIVE_DIAL_TASKS
    {
      started := [];
      var i := 0;
      while |running| < MAX_ACTIVE_DIAL_TASKS && i < |queued|
        invariant 0 <= i <= |queued| && queued == old(queued)
        invariant |running| <= MAX_ACTIVE_DIAL_TASKS && started == queued[..i] && running == old(running) + started
      {
        running, started, i := running + [queued[i]], started + [queued[i]], i + 1;
      }
      queued := queued[i..];
    }

    method StartWaiting() returns (started: seq<Task>)
      requires Valid()
      modifies this`running, this`queued
      ensures Valid() && running == old(running) + started && old(queued) == started + queued
      ensures queued == [] || |running| == MAX_ACTIVE_DIAL_TASKS
      ensures started == old(queued)[..Startable(old(running), old(queued))] && Rested(started, done, clock)
    {
      started := StartQueued();
      assert running + queued == old(running + queued);
      RestedParts(started, queued, done, clock);
    }

    /**
     Starts what is queued, then asks the dialer for more.  Whatever starts, from
     the queue or new, goes to a node whose last dial is long enough ago; new dials
     go to nodes that are not connected.  What starts now goes to unconnected nodes
     only exactly if that holds of the queued tasks there is room for: they were
     checked when made, not when started.
     */
    method ScheduleTasks(now: int, random: seq<Node>) returns (started: seq<Task>, made: seq<Task>)
      requires Valid() && clock <= now
      modifies this, dial
      ensures Valid() && peers == old(peers) && done == old(done) && clock == now
      ensures running == old(running) + started && old(queued) + made == started + queued
      ensures Rested(started, done, now)
      ensures Unconnected(made, peers) && Rested(made, done, now)
      ensures Unconnected(started, peers) <==> Unconnected(old(queued)[..Startable(old(running), old(queued))], peers)
      ensures old(|running| + |queued|) < MAX_ACTIVE_DIAL_TASKS ==>
                Dialed(old(dial.statics), dial, peers) && Needed(made, dial, peers)
      ensures Fewer(old(dial.hist), dial.hist) && (queued == [] || |running| == MAX_ACTIVE_DIAL_TASKS)
    {
      started := StartWaiting();
      RestedLater(started, done, clock, now);
      made := [];
      if |running| < MAX_ACTIVE_DIAL_TASKS {
        ghost var early := started;
        var more;
        more, made := StartNew(now, random);
        started := started + more;
        StartedUnconnected(early, more, queued, peers);
        RestedParts(early, more, done, now);
        Regroup(old(running), early, more, queued);
      } else {
        RestedLater(queued, done, clock, now);
        clock := now;
        assert old(queued) + made == old(queued);
      }
    }

    /** Asks the dialer for new tasks and starts as many as there is room for. */
    method StartNew(now: int, random: seq<Node>) returns (started: seq<Task>, made: seq<Task>)
      requires Valid() && clock <= now && queued == []
      modifies this`running, this`queued, this`clock, dial
      ensures Valid() && clock == now && running == old(running) + started && made == started + queued
      ensures Unconnected(made, peers) && Rested(made, done, now) && Rested(started, done, now)
      ensures Dialed(old(dial.statics), dial, peers) && Needed(made, dial, peers) && Fewer(old(dial.hist), dial.hist)
      ensures queued == [] || |running| == MAX_ACTIVE_DIAL_TASKS
    {
      made := AskDialer(now, random);
      queued := made;
      started := StartQueued();
      RestedParts(started, queued, done, now);
      Regroup([], old(running), started, queued);
      assert [] + old(running) == old(running);
    }

    /** Asks the dialer for new tasks, when nothing is left in the queue. */
    method AskDialer(now: int, random: seq<Node>) returns (made: seq<Task>)
      requires Valid() && clock <= now && queued == []
      modifies dial, this`clock
      ensures dial.Valid() && Tracks(dial.dialing, running + made) && clock == now
      ensures |DynOf(peers) + DynOf(dial.dialing)| <= dial.maxDynDials && Remembered(dial.hist, done, clock)
      ensures Unconnected(made, peers) && Rested(made, done, now)
      ensures Dialed(old(dial.statics), dial, peers) && Needed(made, dial, peers) && Fewer(old(dial.hist), dial.hist)
    {
      ghost var was, dyn := dial.hist, DynOf(dial.dialing);
      assert running + queued == running;
      made := dial.NewTasks(|running| + |queued|, peers, now, random, running);
      RestedIfForgotten(made, was, dial.hist, done, clock, now);
      clock := now;
      UnionBound(DynOf(peers), DynOf(dial.dialing));
    }

    /** A running task has finished. */
    method TaskFinished(k: nat, now: int, results: seq<Node>)
      requires Valid() && k < |running| && clock <= now
      modifies this, dial
      ensures Valid() && running == Dropped(old(running), k) && queued == old(queued) && peers == old(peers) &&
                clock == now
      ensures done == Noted(old(done), [old(running)[k]], now)
    {
      var t := running[k];
      TracksDrop(dial.dialing, running + queued, k);
      DroppedFirst(running, queued, k);
      RestedLater(queued, done, clock, now);
      if t.DialTask? {
        RestedApart(running, queued, k, done, now);
      }
      ghost var dialing := dial.dialing;
      dial.TaskDone(t, now, results);
      running := running[..k] + running[k + 1..];
      assert Tracks(dial.dialing, running + queued);
      if t.DialTask? {
        done := done[t.id := now];
      }
      clock := now;
      SubsetSize(DynOf(peers) + DynOf(dial.dialing), DynOf(peers) + DynOf(dialing));
    }

    /**
     A connection is past its handshakes.  A dynamically dialed one comes from a
     dial task that is still running: tasks end after their peer has been added or
     discarded.  It is useless exactly if matching would leave no common protocol.
     */
    method AddPeer(id: Id, flag: Flag, trusted: bool, caps: seq<Cap>) returns (err: Option<Refusal>)
      requires Valid() && (flag == Dyn ==> DialTask(id, Dyn) in running)
      modifies this`peers
      ensures Valid()
      ensures peers == if err == None then old(peers)[id := flag] else old(peers)
      ensures err == if protocols != [] && forall name :: !Matched(protocols, caps, name) then Some(UselessPeer)
                     else if !trusted && flag != Static && |old(peers)| >= maxPeers then Some(TooManyPeers)
                     else if id in old(peers) then Some(Refusal.AlreadyConnected)
                     else if dial.self == Some(id) then Some(Self)
                     else None
    {
      var matching := CountMatching(protocols, caps);
      if |protocols| > 0 && matching == 0 {
        return Some(UselessPeer);
      }
      if !trusted && flag != Static && |peers| >= maxPeers {
        return Some(TooManyPeers);
      }
      if id in peers {
        return Some(Refusal.AlreadyConnected);
      }
      if dial.self == Some(id) {
        return Some(Self);
      }
      if flag == Dyn {
        ghost var i :| 0 <= i < |running| && running[i] == DialTask(id, Dyn);
        assert (running + queued)[i] == DialTask(id, Dyn) && Flagged(dial.dialing, running + queued, i);
      }
      SubsetSize(DynOf(peers[id := flag]) + DynOf(dial.dialing), DynOf(peers) + DynOf(dial.dialing));
      peers := peers[id := flag];
      return None;
    }

    method DelPeer(id: Id)
      requires Valid()
      modifies this`peers
      ensures Valid() && peers == old(peers) - {id}
    {
      SubsetSize(DynOf(peers - {id}) + DynOf(dial.dialing), DynOf(peers) + DynOf(dial.dialing));
      peers := peers - {id};
    }

    method AddStatic(n: Node)
      requires Valid()
      modifies dial`statics
      ensures Valid() && dial.statics == old(dial.statics)[n.id := n]
    {
      dial.AddStatic(n);
    }

    /** Forgets a static node; if it is connected, its peer is asked to leave and is deleted when it has. */
    method RemoveStatic(n: Node)
      requires Valid()
      modifies dial`statics
      ensures Valid() && dial.statics == old(dial.statics) - {n.id}
    {
      dial.RemoveStatic(n);
    }

    /** One round of the loop: schedule, then handle an event, which may be the end of a running task. */
    method Round(e: Event, now: int, random: seq<Node>) returns (started: seq<Task>, ghost ended: seq<Task>)
      requires Valid() && clock <= now
      modifies this, dial
      ensures Valid() && clock == now && Rested(started, old(done), now)
      ensures |ended| <= 1 && Moved(old(running), running, started, ended) && done == Noted(old(done), ended, now)
    {
      var made;
      started, made := ScheduleTasks(now, random);
      ghost var busy := running;
      ended := Handle(e, now);
      MovedThen(old(running), busy, running, started, ended);
    }

    method Handle(e: Event, now: int) returns (ghost ended: seq<Task>)
      requires Valid() && clock == now
      modifies this, dial
      ensures Valid() && clock == now && |ended| <= 1
      ensures Moved(old(running), running, [], ended) && done == Noted(old(done), ended, now)
    {
      ended := [];
      match e
      case StaticAdded(n) => AddStatic(n);
      case StaticRemoved(n) => RemoveStatic(n);
      case Finished(k, results) =>
        if k < |running| {
          ended := [running[k]];
          DroppedMembers(running, k);
          TaskFinished(k, now, results);
        }
      case Connected(id, flag, trusted, caps) =>
        if flag != Dyn || DialTask(id, Dyn) in running {
          var err := AddPeer(id, flag, trusted, caps);
        }
      case Disconnected(id) => DelPeer(id);
    }

    /**
     Every run of the loop keeps all of `Valid`.  The log has, per round, its time,
     what it started and what ended in it: what runs at the end is what ran at first
     and was started, less what ended, and a dial starts only if every earlier one
     to its node that ended in the run did so over 30 seconds before.
     */
    method Run(events: seq<Event>, times: seq<int>, random: seq<seq<Node>>) returns (ghost log: seq<Entry>)
      requires Valid() && |times| == |random| == |events|
      requires (forall i :: 0 <= i < |times| ==> clock <= times[i]) && forall i, j :: 0 <= i < j < |times| ==>
                 times[i] <= times[j]
      modifies this, dial
      ensures Valid() && |log| == |events| && forall i :: 0 <= i < |log| ==> log[i].now == times[i]
      ensures Conserved(old(running), running, log) && Spaced(log)
    {
      var i := 0;
      log := [];
      while i < |events|
        invariant 0 <= i == |log| <= |events| && forall j :: i <= j < |times| ==> clock <= times[j]
        invariant forall j :: 0 <= j < |log| ==> log[j].now == times[j]
        invariant Logged(log, old(running))
      {
        log := RunRound(events[i], times[i], random[i], log, old(running));
        i := i + 1;
      }
    }

    /** How a run stands. */
    ghost predicate Logged(log: seq<Entry>, first: seq<Task>)
      reads this, dial
    {
      && Valid() && Conserved(first, running, log)
      && Spaced(log) && EndsNoted(log, done) && forall i :: 0 <= i < |log| ==> log[i].now <= clock
    }

    method RunRound(e: Event, now: int, random: seq<Node>, ghost log: seq<Entry>, ghost first: seq<Task>)
      returns (ghost log': seq<Entry>)
      requires Logged(log, first) && clock <= now
      modifies this, dial
      ensures Logged(log', first) && clock == now && |log'| == |log| + 1 && log' == log + [log'[|log|]] &&
                log'[|log|].now == now
    {
      ghost var before, busy := done, running;
      var started, ended := Round(e, now, random);
      ghost var entry := Entry(now, started, ended);
      log' := log + [entry];
      ConservedMore(first, busy, running, log, entry);
      SpacedMore(log, before, entry);
      NotedMore(log, before, entry);
    }
  }

  /** What a round of the loop did. */
  datatype Entry = Entry(now: int, started: seq<Task>, ended: seq<Task>)

  ghost function AllStarted(log: seq<Entry>): multiset<Task> {
    if log == [] then multiset{} else AllStarted(log[..|log| - 1]) + multiset(log[|log| - 1].started)
  }

  ghost function AllEnded(log: seq<Entry>): multiset<Task> {
    if log == [] then multiset{} else AllEnded(log[..|log| - 1]) + multiset(log[|log| - 1].ended)
  }

  /** What runs now is what ran and was started, less what ended. */
  ghost predicate Moved(was: seq<Task>, now: seq<Task>, started: seq<Task>, ended: seq<Task>) {
    multiset(now) + multiset(ended) == multiset(was) + multiset(started)
  }

  ghost predicate Conserved(was: seq<Task>, now: seq<Task>, log: seq<Entry>) {
    multiset(now) + AllEnded(log) == multiset(was) + AllStarted(log)
  }

  lemma MovedThen(a: seq<Task>, b: seq<Task>, c: seq<Task>, started: seq<Task>, ended: seq<Task>)
    requires b == a + started && Moved(b, c, [], ended)
    ensures Moved(a, c, started, ended)
  {
  }

  lemma ConservedMore(a: seq<Task>, b: seq<Task>, c: seq<Task>, log: seq<Entry>, e: Entry)
    requires Conserved(a, b, log) && Moved(b, c, e.started, e.ended)
    ensures Conserved(a, c, log + [e])
  {
    var more := log + [e];
    assert more[..|log|] == log;
    forall t ensures (multiset(c) + AllEnded(more))[t] == (multiset(a) + AllStarted(more))[t] {
      assert (multiset(b) + AllEnded(log))[t] == (multiset(a) + AllStarted(log))[t];
      assert (multiset(c) + multiset(e.ended))[t] == (multiset(b) + multiset(e.started))[t];
    }
  }

  /** When nodes were last dialed to the end, once these tasks have ended. */
  ghost function Noted(done: map<Id, int>, ended: seq<Task>, now: int): map<Id, int> {
    if ended != [] && ended[0].DialTask? then done[ended[0].id := now] else done
  }

  ghost predicate Dials(ts: seq<Task>, k: int, id: Id) {
    0 <= k < |ts| && ts[k].DialTask? && ts[k].id == id
  }

  ghost predicate SpacedAt(e: Entry, later: Entry, k: int, l: int, id: Id) {
    Dials(e.ended, k, id) && Dials(later.started, l, id) ==> e.now + HISTORY_EXPIRATION < later.now
  }

  /** No dial starts within the history time of an earlier end of a dial to the same node. */
  ghost predicate Spaced(log: seq<Entry>) {
    forall i, j, k, l, id {:trigger SpacedAt(log[i], log[j], k, l, id)} :: 0 <= i < j < |log| ==>
      SpacedAt(log[i], log[j], k, l, id)
  }

  ghost predicate NotedAt(e: Entry, done: map<Id, int>, k: int, id: Id) {
    Dials(e.ended, k, id) ==> id in done && e.now <= done[id]
  }

  ghost predicate EndsNoted(log: seq<Entry>, done: map<Id, int>) {
    forall i, k, id {:trigger NotedAt(log[i], done, k, id)} :: 0 <= i < |log| ==> NotedAt(log[i], done, k, id)
  }

  lemma SpacedMore(log: seq<Entry>, done: map<Id, int>, e: Entry)
    requires Spaced(log) && EndsNoted(log, done) && Rested(e.started, done, e.now)
    ensures Spaced(log + [e])
  {
    var more := log + [e];
    forall i, j, k, l, id | 0 <= i < j < |more| ensures SpacedAt(more[i], more[j], k, l, id) {
      if j < |log| {
        assert SpacedAt(log[i], log[j], k, l, id);
      } else {
        assert NotedAt(log[i], done, k, id) && RestedAt(e.started, done, e.now, l);
      }
    }
  }

  lemma NotedMore(log: seq<Entry>, done: map<Id, int>, e: Entry)
    requires EndsNoted(log, done) && |e.ended| <= 1 && forall i :: 0 <= i < |log| ==> log[i].now <= e.now
    ensures EndsNoted(log + [e], Noted(done, e.ended, e.now))
  {
    var more, later := log + [e], Noted(done, e.ended, e.now);
    forall i, k, id | 0 <= i < |more| ensures NotedAt(more[i], later, k, id) {
      if i < |log| {
        assert NotedAt(log[i], done, k, id) && log[i].now <= e.now;
      }
    }
  }

  lemma DroppedMembers(running: seq<Task>, k: nat)
    requires k < |running|
    ensures Moved(running, Dropped(running, k), [], [running[k]])
  {
    assert running == running[..k] + [running[k]] + running[k + 1..];
  }

  datatype Event =
    | StaticAdded(n: Node)
    | StaticRemoved(n: Node)
    | Finished(k: nat, results: seq<Node>)
    | Connected(id: Id, flag: Flag, trusted: bool, caps: seq<Cap>)
    | Disconnected(id: Id)

  lemma RestedLater(ts: seq<Task>, done: map<Id, int>, clock: int, now: int)
    requires Rested(ts, done, clock) && clock <= now
    ensures Rested(ts, done, now)
  {
    forall i ensures RestedAt(ts, done, now, i) {
      assert RestedAt(ts, done, clock, i);
    }
  }

  lemma RestedParts(a: seq<Task>, b: seq<Task>, done: map<Id, int>, now: int)
    ensures Rested(a + b, done, now) <==> Rested(a, done, now) && Rested(b, done, now)
  {
    if Rested(a + b, done, now) {
      forall i ensures RestedAt(a, done, now, i) && RestedAt(b, done, now, i) {
        assert RestedAt(a + b, done, now, i) && RestedAt(a + b, done, now, |a| + i);
      }
    }
    if Rested(a, done, now) && Rested(b, done, now) {
      forall i ensures RestedAt(a + b, done, now, i) {
        assert RestedAt(a, done, now, i) && RestedAt(b, done, now, i - |a|);
      }
    }
  }

  /** The end of a running dial says nothing about the queued ones, which go to other nodes. */
  lemma RestedApart(running: seq<Task>, queued: seq<Task>, k: nat, done: map<Id, int>, now: int)
    requires OnePerNode(running + queued) && k < |running| && running[k].DialTask? && Rested(queued, done, now)
    ensures Rested(queued, done[running[k].id := now], now)
  {
    var later := done[running[k].id := now];
    forall i ensures RestedAt(queued, later, now, i) {
      assert RestedAt(queued, done, now, i) && Apart(running + queued, k, |running| + i);
    }
  }

  lemma Regroup(a: seq<Task>, b: seq<Task>, c: seq<Task>, d: seq<Task>)
    ensures (a + b) + c == a + (b + c) && b + (c + d) == (b + c) + d
  {
  }

  lemma DroppedFirst(running: seq<Task>, queued: seq<Task>, k: nat)
    requires k < |running|
    ensures Dropped(running + queued, k) == Dropped(running, k) + queued && (running + queued)[k] == running[k]
  {
  }

  /** What a round starts: part of the queue first, then part of what was made. */
  lemma StartedUnconnected(early: seq<Task>, more: seq<Task>, rest: seq<Task>, peers: map<Id, Flag>)
    requires Unconnected(more + rest, peers)
    ensures Unconnected(early + more, peers) <==> Unconnected(early, peers)
  {
    var all := early + more;
    if Unconnected(all, peers) {
      forall i ensures UnconnectedAt(early, peers, i) {
        assert UnconnectedAt(all, peers, i);
      }
    }
    if Unconnected(early, peers) {
      forall i ensures UnconnectedAt(all, peers, i) {
        assert UnconnectedAt(early, peers, i) && UnconnectedAt(more + rest, peers, i - |early|);
      }
    }
  }

  ghost function DialIds(ts: seq<Task>): set<Id> {
    set i | 0 <= i < |ts| && ts[i].DialTask? :: ts[i].id
  }

  lemma {:induction false} IdsAtMost(ts: seq<Task>)
    ensures |DialIds(ts)| <= |ts|
  {
    if ts != [] {
      var rest, last := ts[..|ts| - 1], ts[|ts| - 1];
      IdsAtMost(rest);
      var ids := DialIds(rest) + if last.DialTask? then {last.id} else {};
      forall id | id in DialIds(ts) ensures id in ids {
        var i :| 0 <= i < |ts| && ts[i].DialTask? && ts[i].id == id;
        assert i < |rest| ==> rest[i] == ts[i];
      }
      SubsetSize(DialIds(ts), ids);
    }
  }

  lemma {:induction false} ManyIds(ids: set<Id>, n: nat)
    requires forall id: Id :: id < n ==> id in ids
    ensures |ids| >= n
  {
    if n > 0 {
      ManyIds(ids - {n - 1}, n - 1);
    }
  }

  /** Dials to `n` different nodes are at least `n` tasks. */
  lemma ManyTasked(ts: seq<Task>, n: nat)
    requires forall id: Id :: id < n ==> Tasked(ts, id)
    ensures |ts| >= n
  {
    forall id: Id | id < n ensures id in DialIds(ts) {
      assert Tasked(ts, id);
    }
    IdsAtMost(ts);
    ManyIds(DialIds(ts), n);
  }

  lemma NoneRecent(hist: seq<PastDial>, id: Id)
    requires Fewer([], hist)
    ensures !Recent(hist, id)
  {
    assert multiset(hist) == multiset{};
    assert |multiset(hist)| == |hist|;
  }

  /** A server with static nodes 0, ..., n - 1. */
  method WithStatics(n: nat) returns (s: Server)
    ensures s.Valid() && fresh(s) && fresh(s.dial) && s.running == s.queued == [] && s.peers == map[] && s.clock == 0
    ensures s.maxPeers == 50 && s.protocols == [] && s.dial.self == None && s.dial.netrestrict == None
    ensures s.done == map[] && s.dial.hist == [] && s.dial.maxDynDials == 0
    ensures forall id: Id :: id < n ==> id in s.dial.statics
  {
    var dial := new DialState(0, None, None, []);
    s := new Server(dial, 50, [], 0);
    var i := 0;
    while i < n
      invariant 0 <= i <= n && s.Valid() && s.running == s.queued == [] && s.peers == map[]
      invariant s.clock == 0 && s.done == map[] && dial.hist == []
      invariant forall id: Id :: id < i ==> id in dial.statics
    {
      s.AddStatic(Node(i, 0));
      i := i + 1;
    }
  }

  /** Seventeen static nodes are to be dialed at once: sixteen dials run and one waits. */
  method DialSeventeen() returns (s: Server)
    ensures s.Valid() && fresh(s) && fresh(s.dial) && s.peers == map[] && s.clock == 0
    ensures s.maxPeers == 50 && s.protocols == [] && s.dial.self == None
    ensures |s.running| == MAX_ACTIVE_DIAL_TASKS && |s.queued| > 0 && s.queued[0].DialTask?
  {
    s := WithStatics(MAX_ACTIVE_DIAL_TASKS + 1);
    ghost var statics := s.dial.statics;
    var started, made := s.ScheduleTasks(0, []);
    assert made == started + s.queued &&
        s.running == started by { assert [] + made == made && [] + started == started; }
    forall id: Id | id < MAX_ACTIVE_DIAL_TASKS + 1 ensures Tasked(made, id) {
      assert id in statics && s.dial.Dialable(statics[id], s.peers) by { NoneRecent(s.dial.hist, id); }
      assert Covers(s.dial.dialing, s.running + s.queued, id);
    }
    ManyTasked(made, MAX_ACTIVE_DIAL_TASKS + 1);
    assert s.queued[0] in made by { assert made[|started|] == s.queued[0]; }
  }

  /** When there is room, the first queued dial starts, whether or not its node has connected meanwhile. */
  method StartsAnyway(s: Server, now: int) returns (started: seq<Task>)
    requires s.Valid() && s.clock <= now && |s.running| < MAX_ACTIVE_DIAL_TASKS && s.queued != []
    modifies s, s.dial
    ensures s.Valid() && s.peers == old(s.peers) && started != [] && started[0] == old(s.queued[0])
  {
    ghost var queued, k := s.queued, Startable(s.running, s.queued);
    var made;
    started, made := s.ScheduleTasks(now, []);
    assert started != [] && (queued + made)[0] == queued[0] && (started + s.queued)[0] == started[0];
  }

  /** The node of a queued dial connects by itself, then a running task ends. */
  method ConnectsItself(s: Server, now: int) returns (id: Id)
    requires s.Valid() && s.clock <= now && s.peers == map[] && s.maxPeers > 0 && s.protocols == [] &&
               s.dial.self == None
    requires |s.running| == MAX_ACTIVE_DIAL_TASKS && s.queued != [] && s.queued[0].DialTask?
    modifies s, s.dial
    ensures s.Valid() && s.clock == now && s.queued == old(s.queued) && id == s.queued[0].id
    ensures id in s.peers && s.peers[id] == Inbound && |s.running| < MAX_ACTIVE_DIAL_TASKS
  {
    id := s.queued[0].id;
    var err := s.AddPeer(id, Inbound, false, []);
    assert err == None;
    s.TaskFinished(0, now, []);
  }

  /**
   A dial is made while its node is unconnected, waits behind sixteen others, and
   starts when one of them ends, although its node has connected by itself.
   */
  method QueuedDialToConnected() returns (s: Server, started: seq<Task>, id: Id)
    ensures s.Valid() && id in s.peers && s.peers[id] == Inbound
    ensures started != [] && started[0].DialTask? && started[0].id == id && !Unconnected(started, s.peers)
  {
    s := DialSeventeen();
    id := ConnectsItself(s, 1);
    started := StartsAnyway(s, 1);
    assert !UnconnectedAt(started, s.peers, 0);
  }
}
