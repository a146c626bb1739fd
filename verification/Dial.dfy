/**
 The dialer: which nodes to dial next, given who is connected, who is being
 dialed and who was dialed lately.
 */
module Dial {
  import opened Heap
  import opened Options

  type Id = nat

  /** How a connection came about. */
  datatype Flag = Dyn | Static | Inbound

  datatype Node = Node(id: Id, ip: nat)

  datatype Task = DialTask(id: Id, flag: Flag) | DiscoverTask | WaitTask(until: int)

  datatype PastDial = PastDial(id: Id, exp: int)

  const HISTORY_EXPIRATION := 30
  const FALLBACK_INTERVAL := 20

  function ExpKey(d: PastDial): int { d.exp }

  function DynOf(m: map<Id, Flag>): set<Id> {
    set id | id in m && m[id] == Dyn
  }

  function CountDyn(m: map<Id, Flag>): nat {
    |DynOf(m)|
  }

  /** `n` more dynamic dials, on top of those there were. */
  ghost predicate DynGrew(a: map<Id, Flag>, b: map<Id, Flag>, n: int) {
    a.Keys <= b.Keys && DynOf(a) <= DynOf(b) && CountDyn(b) == CountDyn(a) + n
  }

  lemma SameDyn(a: map<Id, Flag>, b: map<Id, Flag>)
    requires DynOf(a) <= DynOf(b)
    ensures CountDyn(a) == CountDyn(b) ==> DynOf(a) == DynOf(b)
  {
    assert DynOf(b) == DynOf(a) + (DynOf(b) - DynOf(a));
  }

  lemma CountDynAdd(m: map<Id, Flag>, id: Id, flag: Flag)
    requires id !in m
    ensures DynGrew(m, m[id := flag], if flag == Dyn then 1 else 0)
  {
    if flag == Dyn {
      assert DynOf(m[id := flag]) == DynOf(m) + {id};
    } else {
      assert DynOf(m[id := flag]) == DynOf(m);
    }
  }

  /** The node is in the dial history. */
  ghost predicate Recent(hist: seq<PastDial>, id: Id) {
    exists i :: 0 <= i < |hist| && hist[i].id == id
  }

  method Contains(hist: seq<PastDial>, id: Id) returns (r: bool)
    ensures r == Recent(hist, id)
  {
    var i := 0;
    while i < |hist|
      invariant 0 <= i <= |hist| && forall j :: 0 <= j < i ==> hist[j].id != id
    {
      if hist[i].id == id {
        return true;
      }
      i := i + 1;
    }
    return false;
  }

  /** Pops the entries that have expired; all that remain have not. */
  method Expire(h: seq<PastDial>, now: int) returns (r: seq<PastDial>)
    requires IsHeap(h, ExpKey)
    ensures IsHeap(r, ExpKey)
    ensures forall d :: d in multiset(r) <==> d in multiset(h) && now <= d.exp
  {
    r := h;
    while |r| > 0 && r[0].exp < now
      invariant IsHeap(r, ExpKey)
      invariant forall d :: d in multiset(r) ==> d in multiset(h)
      invariant forall d :: d in multiset(h) && now <= d.exp ==> d in multiset(r)
      decreases |r|
    {
      ghost var was := r;
      var d;
      d, r := Pop(r, ExpKey);
      assert multiset(was) == multiset(r) + multiset{d};
      assert |was| == |multiset(was)| == |multiset(r)| + 1;
    }
    forall d | d in multiset(r) ensures now <= d.exp {
      var i :| 0 <= i < |r| && r[i] == d;
      RootIsLeast(r, ExpKey, i);
    }
  }

  // ---------------------------------------------------------------------------
  // Outstanding dials
  // ---------------------------------------------------------------------------

  ghost predicate OnlyDials(ts: seq<Task>) {
    forall i :: 0 <= i < |ts| ==> ts[i].DialTask?
  }

  /** A dial to the node is among the tasks. */
  ghost predicate Tasked(ts: seq<Task>, id: Id) {
    exists i :: 0 <= i < |ts| && ts[i].DialTask? && ts[i].id == id
  }

  ghost predicate Apart(ts: seq<Task>, i: int, j: int) {
    0 <= i < j < |ts| && ts[i].DialTask? && ts[j].DialTask? ==> ts[i].id != ts[j].id
  }

  /** No two dials go to the same node. */
  ghost predicate OnePerNode(ts: seq<Task>) {
    forall i, j {:trigger Apart(ts, i, j)} :: Apart(ts, i, j)
  }

  ghost predicate Flagged(dialing: map<Id, Flag>, ts: seq<Task>, i: int) {
    0 <= i < |ts| && ts[i].DialTask? ==> ts[i].id in dialing && dialing[ts[i].id] == ts[i].flag
  }

  ghost predicate Covers(dialing: map<Id, Flag>, ts: seq<Task>, id: Id) {
    id in dialing ==> Tasked(ts, id)
  }

  /** `dialing` lists exactly the nodes of the outstanding dials, with their flags. */
  ghost predicate Tracks(dialing: map<Id, Flag>, ts: seq<Task>) {
    && OnePerNode(ts) && (forall id {:trigger Covers(dialing, ts, id)} :: Covers(dialing, ts, id))
    && forall i {:trigger Flagged(dialing, ts, i)} :: Flagged(dialing, ts, i)
  }

  lemma TaskedMore(ts: seq<Task>, t: Task, id: Id)
    requires Tasked(ts, id)
    ensures Tasked(ts + [t], id)
  {
    var i :| 0 <= i < |ts| && ts[i].DialTask? && ts[i].id == id;
    assert (ts + [t])[i] == ts[i];
  }

  lemma TracksAppend(dialing: map<Id, Flag>, ts: seq<Task>, id: Id, flag: Flag)
    requires Tracks(dialing, ts) && id !in dialing
    ensures Tracks(dialing[id := flag], ts + [DialTask(id, flag)])
  {
    var us, next := ts + [DialTask(id, flag)], dialing[id := flag];
    forall i | 0 <= i < |ts| && ts[i].DialTask? ensures ts[i].id != id {
      assert Flagged(dialing, ts, i);
    }
    forall other ensures Covers(next, us, other) {
      assert Covers(dialing, ts, other) && us[|ts|] == DialTask(id, flag);
      if Tasked(ts, other) { TaskedMore(ts, DialTask(id, flag), other); }
    }
    forall i, j ensures Apart(us, i, j) {
      assert Apart(ts, i, j);
    }
    forall i ensures Flagged(next, us, i) {
      assert Flagged(dialing, ts, i);
    }
  }

  lemma TracksOther(dialing: map<Id, Flag>, ts: seq<Task>, t: Task)
    requires Tracks(dialing, ts) && !t.DialTask?
    ensures Tracks(dialing, ts + [t])
  {
    var us := ts + [t];
    forall id ensures Covers(dialing, us, id) {
      assert Covers(dialing, ts, id);
      if Tasked(ts, id) { TaskedMore(ts, t, id); }
    }
    forall i, j ensures Apart(us, i, j) {
      assert Apart(ts, i, j);
    }
    forall i ensures Flagged(dialing, us, i) {
      assert Flagged(dialing, ts, i);
    }
  }

  function Dropped(ts: seq<Task>, k: nat): seq<Task>
    requires k < |ts|
  {
    ts[..k] + ts[k + 1..]
  }

  /** A finished dial leaves both records. */
  lemma TracksDrop(dialing: map<Id, Flag>, ts: seq<Task>, k: nat)
    requires Tracks(dialing, ts) && k < |ts|
    ensures Tracks(if ts[k].DialTask? then dialing - {ts[k].id} else dialing, Dropped(ts, k))
  {
    var us := Dropped(ts, k);
    var left := if ts[k].DialTask? then dialing - {ts[k].id} else dialing;
    forall i, j ensures Apart(us, i, j) {
      assert Apart(ts, if i < k then i else i + 1, if j < k then j else j + 1);
    }
    forall i ensures Flagged(left, us, i) {
      var m := if i < k then i else i + 1;
      assert Flagged(dialing, ts, m) && Apart(ts, m, k) && Apart(ts, k, m);
    }
    forall id ensures Covers(left, us, id) {
      assert Covers(dialing, ts, id);
      if id in left {
        var i :| 0 <= i < |ts| && ts[i].DialTask? && ts[i].id == id;
        assert i != k && us[if i < k then i else i - 1] == ts[i];
      }
    }
  }

  // ---------------------------------------------------------------------------
  // The dial state
  // ---------------------------------------------------------------------------

  class DialState {
    const maxDynDials: nat
    const self: Option<Id>
    /** The addresses dials are restricted to, if they are. */
    const netrestrict: Option<set<nat>>
    var dialing: map<Id, Flag>
    var statics: map<Id, Node>
    var hist: seq<PastDial>
    var lookupBuf: seq<Node>
    var lookupRunning: bool
    var bootnodes: seq<Node>
    var start: Option<int>

    ghost predicate Valid()
      reads this
    {
      IsHeap(hist, ExpKey) && forall id :: id in statics ==> statics[id].id == id
    }

    constructor (maxdyn: nat, self: Option<Id>, netrestrict: Option<set<nat>>, bootnodes: seq<Node>)
      ensures Valid() && dialing == map[] && hist == [] && statics == map[] && maxDynDials == maxdyn
      ensures this.self == self && this.netrestrict == netrestrict
    {
      maxDynDials := maxdyn;
      this.self, this.netrestrict, this.bootnodes := self, netrestrict, bootnodes;
      dialing, statics, hist, lookupBuf, lookupRunning, start := map[], map[], [], [], false, None;
    }

    /** The node may be dialed, as far as connections, self, address and history are concerned. */
    ghost predicate Dialable(n: Node, peers: map<Id, Flag>)
      reads this
    {
      n.id !in peers && self != Some(n.id) && (netrestrict.Some? ==> n.ip in netrestrict.value) && !Recent(hist, n.id)
    }

    method CheckDial(n: Node, peers: map<Id, Flag>) returns (err: Option<DialError>)
      ensures err == None <==> n.id !in dialing && Dialable(n, peers)
      ensures err == Some(AlreadyDialing) <==> n.id in dialing
      ensures err == Some(AlreadyConnected) <==> n.id !in dialing && n.id in peers
      ensures err == Some(IsSelf) <==> n.id !in dialing && n.id !in peers && self == Some(n.id)
      ensures err == Some(NotWhitelisted) <==>
                n.id !in dialing && n.id !in peers && self != Some(n.id) && netrestrict.Some? &&
                    n.ip !in netrestrict.value
    {
      if n.id in dialing { return Some(AlreadyDialing); }
      if n.id in peers { return Some(AlreadyConnected); }
      if self == Some(n.id) { return Some(IsSelf); }
      if netrestrict.Some? && n.ip !in netrestrict.value { return Some(NotWhitelisted); }
      var recent := Contains(hist, n.id);
      return if recent then Some(RecentlyDialed) else None;
    }

    method AddStatic(n: Node)
      requires Valid()
      modifies this`statics
      ensures Valid() && statics == old(statics)[n.id := n]
    {
      statics := statics[n.id := n];
    }

    method RemoveStatic(n: Node)
      requires Valid()
      modifies this`statics
      ensures Valid() && statics == old(statics) - {n.id}
    {
      statics := statics - {n.id};
    }

    // -------------------------------------------------------------------------
    // New tasks
    // -------------------------------------------------------------------------

    /** New dials go to nodes that are neither connected, nor this one, nor dialed lately. */
    ghost predicate Fresh(ts: seq<Task>, peers: map<Id, Flag>)
      reads this
    {
      forall i :: 0 <= i < |ts| && ts[i].DialTask? ==>
        ts[i].id !in peers && self != Some(ts[i].id) && !Recent(hist, ts[i].id)
    }

    /** `dialing` tracks what is outstanding together with the tasks made so far. */
    ghost predicate Issuing(out: seq<Task>, ts: seq<Task>, peers: map<Id, Flag>)
      reads this
    {
      Valid() && Tracks(dialing, out + ts) && Fresh(ts, peers)
    }

    method Issue(id: Id, flag: Flag, ts: seq<Task>, ghost out: seq<Task>, ghost peers: map<Id, Flag>)
      returns (us: seq<Task>)
      requires Issuing(out, ts, peers) && id !in dialing && id !in peers && self != Some(id) && !Recent(hist, id)
      modifies this`dialing
      ensures Issuing(out, us, peers) && us == ts + [DialTask(id, flag)] && dialing == old(dialing)[id := flag]
      ensures DynGrew(old(dialing), dialing, if flag == Dyn then 1 else 0)
    {
      TracksAppend(dialing, out + ts, id, flag);
      CountDynAdd(dialing, id, flag);
      us := ts + [DialTask(id, flag)];
      assert out + us == (out + ts) + [DialTask(id, flag)];
      dialing := dialing[id := flag];
    }

    /** Dials a dynamic candidate, if it may be dialed. */
    method AddDyn(n: Node, peers: map<Id, Flag>, ts: seq<Task>, ghost out: seq<Task>) returns (ok: bool, us: seq<Task>)
      requires Issuing(out, ts, peers)
      modifies this`dialing
      ensures Issuing(out, us, peers) && ok == (n.id !in old(dialing) && old(Dialable(n, peers)))
      ensures DynGrew(old(dialing), dialing, if ok then 1 else 0)
      ensures !ok ==> us == ts && dialing == old(dialing)
      ensures OnlyDials(ts) ==> OnlyDials(us)
    {
      var err := CheckDial(n, peers);
      ok, us := err == None, ts;
      if ok {
        us := Issue(n.id, Dyn, ts, out, peers);
      }
    }

    /** Dials every static node that may be dialed, and forgets those that never may. */
    method DialStatics(peers: map<Id, Flag>, ghost out: seq<Task>) returns (ts: seq<Task>)
      requires Issuing(out, [], peers)
      modifies this`dialing, this`statics
      ensures Issuing(out, ts, peers) && DynGrew(old(dialing), dialing, 0)
      ensures statics.Keys <= old(statics).Keys
      ensures forall id :: id in old(statics) && Dialable(old(statics)[id], peers) ==> id in dialing && id in statics
      ensures OnlyDials(ts)
    {
      ts := [];
      var todo := statics.Keys;
      while todo != {}
        invariant Issuing(out, ts, peers) && DynGrew(old(dialing), dialing, 0)
        invariant todo <= statics.Keys <= old(statics).Keys
        invariant forall id :: id in statics ==> statics[id] == old(statics)[id]
        invariant OnlyDials(ts)
        invariant forall id :: id in old(statics) && id !in todo && Dialable(old(statics)[id], peers) ==>
                    id in dialing && id in statics
        decreases |todo|
      {
        var id :| id in todo;
        ts := DialStatic(id, ts, peers, out);
        todo := todo - {id};
      }
    }

    /** Dials a static node if it may be dialed, and forgets it if it never may. */
    method DialStatic(id: Id, ts: seq<Task>, peers: map<Id, Flag>, ghost out: seq<Task>) returns (us: seq<Task>)
      requires Issuing(out, ts, peers) && id in statics && OnlyDials(ts)
      modifies this`dialing, this`statics
      ensures Issuing(out, us, peers) && DynGrew(old(dialing), dialing, 0) && OnlyDials(us)
      ensures statics == old(statics) || (statics == old(statics) - {id} && !Dialable(old(statics)[id], peers))
      ensures Dialable(old(statics)[id], peers) ==> id in dialing
    {
      us := ts;
      var err := CheckDial(statics[id], peers);
      if err == Some(NotWhitelisted) || err == Some(IsSelf) {
        statics := statics - {id};
      } else if err == None {
        us := Issue(id, Static, ts, out, peers);
      }
    }

    /** Dials up to `limit` of the candidates, counting down the dials still needed. */
    method DialSome(candidates: seq<Node>, limit: nat, need: int, peers: map<Id, Flag>, ts: seq<Task>,
                    ghost out: seq<Task>)
      returns (left: int, us: seq<Task>)
      requires Issuing(out, ts, peers) && limit <= need
      modifies this`dialing
      ensures Issuing(out, us, peers) && need - limit <= left <= need && (OnlyDials(ts) ==> OnlyDials(us))
      ensures DynGrew(old(dialing), dialing, need - left)
    {
      left, us := need, ts;
      var i := 0;
      while i < limit && i < |candidates|
        invariant 0 <= i <= limit && Issuing(out, us, peers) && need - i <= left <= need
        invariant OnlyDials(ts) ==> OnlyDials(us)
        invariant DynGrew(old(dialing), dialing, need - left)
      {
        var ok;
        ok, us := AddDyn(candidates[i], peers, us, out);
        if ok { left := left - 1; }
        i := i + 1;
      }
    }

    /** Dials lookup results while dials are needed, removing those tried. */
    method DialLookups(need: int, peers: map<Id, Flag>, ts: seq<Task>, ghost out: seq<Task>)
      returns (left: int, us: seq<Task>)
      requires Issuing(out, ts, peers)
      modifies this`dialing, this`lookupBuf
      ensures Issuing(out, us, peers) && left <= need && (left == need || left >= 0)
      ensures DynGrew(old(dialing), dialing, need - left)
      ensures left > 0 ==> lookupBuf == []
      ensures OnlyDials(ts) ==> OnlyDials(us)
    {
      left, us := need, ts;
      var i := 0;
      while i < |lookupBuf| && left > 0
        invariant 0 <= i <= |lookupBuf| && Issuing(out, us, peers) && left <= need && (left == need || left >= 0)
        invariant OnlyDials(ts) ==> OnlyDials(us)
        invariant DynGrew(old(dialing), dialing, need - left)
      {
        var ok;
        ok, us := AddDyn(lookupBuf[i], peers, us, out);
        if ok { left := left - 1; }
        i := i + 1;
      }
      lookupBuf := lookupBuf[i..];
    }

    /**
     Creates the tasks to run next.  Every new dial is to a node not being dialed,
     not connected and with no unexpired history; the dynamic dials never exceed
     what connected and outstanding ones leave of the maximum.  A lookup is only
     made while more are needed, and a timer only if there is nothing else.
     */
    method NewTasks(nRunning: nat, peers: map<Id, Flag>, now: int, random: seq<Node>, ghost out: seq<Task>)
      returns (ts: seq<Task>)
      requires Valid() && Tracks(dialing, out)
      modifies this
      ensures Issuing(out, ts, peers)
      ensures forall d :: d in multiset(hist) <==> d in multiset(old(hist)) && now <= d.exp
      ensures DynOf(dialing) == DynOf(old(dialing)) || CountDyn(peers) + CountDyn(dialing) <= maxDynDials
      ensures forall id :: id in old(statics) && Dialable(old(statics)[id], peers) ==> id in dialing && id in statics
      ensures forall t :: t in ts && t.WaitTask? ==> ts == [t]
      ensures DiscoverTask in ts ==> CountDyn(peers) + CountDyn(dialing) < maxDynDials
    {
      if start == None {
        start := Some(now);
      }
      var need := maxDynDials - CountDyn(peers) - CountDyn(dialing);
      hist := Expire(hist, now);
      assert out + [] == out;
      ts := DialStatics(peers, out);
      need, ts := DialDynamic(need, now, peers, random, ts, out);
      ts := Idle(nRunning, need, now, peers, ts, out);
      SameDyn(old(dialing), dialing);
    }

    /** Dials a bootnode if nobody is connected, then random nodes for half of what is needed, then lookup results. */
    method DialDynamic(need: int, now: int, peers: map<Id, Flag>, random: seq<Node>, ts: seq<Task>,
                       ghost out: seq<Task>)
      returns (left: int, us: seq<Task>)
      requires Issuing(out, ts, peers)
      modifies this`dialing, this`lookupBuf, this`bootnodes
      ensures Issuing(out, us, peers) && left <= need && (left == need || left >= 0)
      ensures DynGrew(old(dialing), dialing, need - left) && (OnlyDials(ts) ==> OnlyDials(us))
    {
      left, us := need, ts;
      if peers == map[] && bootnodes != [] && left > 0 && start.Some? && now - start.value > FALLBACK_INTERVAL {
        var bootnode := bootnodes[0];
        bootnodes := bootnodes[1..] + [bootnode];
        var ok;
        ok, us := AddDyn(bootnode, peers, us, out);
        if ok { left := left - 1; }
      }
      if left / 2 > 0 {
        left, us := DialSome(random, left / 2, left, peers, us, out);
      }
      left, us := DialLookups(left, peers, us, out);
    }

    /** Adds a lookup if candidates are short, and a timer if there is nothing else to wait for. */
    method Idle(nRunning: nat, need: int, now: int, ghost peers: map<Id, Flag>, ts: seq<Task>, ghost out: seq<Task>)
      returns (us: seq<Task>)
      requires Issuing(out, ts, peers) && OnlyDials(ts)
      modifies this`lookupRunning
      ensures Issuing(out, us, peers)
      ensures forall t :: t in us && t.WaitTask? ==> us == [t]
      ensures DiscoverTask in us ==> |lookupBuf| < need
    {
      us := ts;
      if |lookupBuf| < need && !lookupRunning {
        lookupRunning := true;
        us := ts + [DiscoverTask];
        TracksOther(dialing, out + ts, DiscoverTask);
        assert out + us == (out + ts) + [DiscoverTask];
      }
      if nRunning == 0 && us == [] && |hist| > 0 {
        var wait := WaitTask(hist[0].exp - now);
        TracksOther(dialing, out + us, wait);
        assert out + (us + [wait]) == (out + us) + [wait];
        us := us + [wait];
      }
    }

    /** Records a finished task; a finished dial goes into the history. */
    method TaskDone(t: Task, now: int, results: seq<Node>)
      requires Valid()
      modifies this
      ensures Valid() && statics == old(statics)
      ensures t.DialTask? ==> dialing == old(dialing) - {t.id}
      ensures t.DialTask? ==>
                multiset(hist) == multiset(old(hist)) + multiset{PastDial(t.id, now + HISTORY_EXPIRATION)}
      ensures !t.DialTask? ==> dialing == old(dialing) && hist == old(hist)
    {
      match t
      case DialTask(id, _) =>
        hist := Push(hist, ExpKey, PastDial(id, now + HISTORY_EXPIRATION));
        dialing := dialing - {id};
      case DiscoverTask =>
        lookupRunning, lookupBuf := false, lookupBuf + results;
      case WaitTask(_) =>
    }
  }

  datatype DialError = IsSelf | AlreadyDialing | AlreadyConnected | RecentlyDialed | NotWhitelisted
}
