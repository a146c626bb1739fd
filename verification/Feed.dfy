/**
 The one-to-many event feed.  `Send` works on a prefix of the case list that
 shrinks in place as subscribers are served, while subscriptions come and go
 around it.
 */
module Feed {

  /** A select case: the removal channel, always in slot 0, or a subscribed channel. */
  datatype Case = RemoveSub | Chan(id: nat)

  // ---------------------------------------------------------------------------
  // Case lists as values
  // ---------------------------------------------------------------------------

  function Deleted(s: seq<Case>, i: nat): (r: seq<Case>)
    requires i < |s|
    ensures |r| == |s| - 1
  {
    s[..i] + s[i + 1..]
  }

  function Deactivated(s: seq<Case>, i: nat, n: nat): (r: seq<Case>)
    requires i < n <= |s|
    ensures |r| == |s|
  {
    s[i := s[n - 1]][n - 1 := s[i]]
  }

  /** Split at `n`: active cases in front, served ones behind. */
  ghost function Active(s: seq<Case>, n: nat): multiset<Case>
    requires 1 <= n <= |s|
  {
    multiset(s[1..n])
  }

  ghost function Served(s: seq<Case>, n: nat): multiset<Case>
    requires n <= |s|
  {
    multiset(s[n..])
  }

  /** The subscribed channels in a list: all but slot 0. */
  ghost function Subs(s: seq<Case>): multiset<Case>
    requires |s| >= 1
  {
    multiset(s[1..])
  }

  lemma SplitAt(s: seq<Case>, n: nat)
    requires 1 <= n <= |s|
    ensures Subs(s) == Active(s, n) + Served(s, n)
  {
    assert s[1..] == s[1..n] + s[n..];
  }

  lemma DeletedMembers(s: seq<Case>, lo: nat, i: nat, hi: nat)
    requires lo <= i < hi <= |s|
    ensures multiset(s[lo..hi]) == multiset(Deleted(s, i)[lo..hi - 1]) + multiset{s[i]}
  {
    var d := Deleted(s, i);
    assert s[lo..hi] == s[lo..i] + [s[i]] + s[i + 1..hi];
    assert d[lo..i] == s[lo..i];
    assert d[i..hi - 1] == s[i + 1..hi];
    assert d[lo..hi - 1] == d[lo..i] + d[i..hi - 1];
  }

  /** Serving a case moves it across the split: the cases behind it gain it. */
  lemma DeactivatedServed(s: seq<Case>, i: nat, n: nat)
    requires 1 <= i < n <= |s|
    ensures Served(Deactivated(s, i, n), n - 1) == Served(s, n) + multiset{s[i]}
  {
    assert Deactivated(s, i, n)[n - 1..] == [s[i]] + s[n..];
  }

  /** The active cases lose it. */
  lemma DeactivatedActive(s: seq<Case>, i: nat, n: nat)
    requires 1 <= i < n <= |s|
    ensures Active(s, n) == Active(Deactivated(s, i, n), n - 1) + multiset{s[i]}
  {
    var r, last := Deactivated(s, i, n), n - 1;
    assert s[1..n] == s[1..last] + [s[last]];
    if i < last {
      Exchanged(s[1..last], i - 1, s[last]);
      assert r[1..last] == s[1..last][i - 1 := s[last]];
    } else {
      assert r[1..last] == s[1..last];
    }
  }

  lemma Exchanged(t: seq<Case>, k: nat, x: Case)
    requires k < |t|
    ensures multiset(t[k := x]) + multiset{t[k]} == multiset(t) + multiset{x}
  {
    assert t == t[..k] + [t[k]] + t[k + 1..];
    assert t[k := x] == t[..k] + [x] + t[k + 1..];
  }

  lemma DeactivatedSubs(s: seq<Case>, i: nat, n: nat)
    requires 1 <= i < n <= |s|
    ensures Subs(Deactivated(s, i, n)) == Subs(s)
  {
    DeactivatedServed(s, i, n);
    DeactivatedActive(s, i, n);
    SplitAt(s, n);
    SplitAt(Deactivated(s, i, n), n - 1);
  }

  /** Removing an active case takes it from the active ones. */
  lemma DeletedActive(s: seq<Case>, i: nat, n: nat)
    requires 1 <= i < n <= |s|
    ensures Active(s, n) == Active(Deleted(s, i), n - 1) + multiset{s[i]} &&
              Served(Deleted(s, i), n - 1) == Served(s, n)
  {
    DeletedMembers(s, 1, i, n);
    assert Deleted(s, i)[n - 1..] == s[n..];
  }

  /** Removing a served case takes it from the served ones. */
  lemma DeletedServed(s: seq<Case>, i: nat, n: nat)
    requires 1 <= n <= i < |s|
    ensures Active(Deleted(s, i), n) == Active(s, n) && Served(s, n) == Served(Deleted(s, i), n) + multiset{s[i]}
  {
    assert Deleted(s, i)[1..n] == s[1..n];
    DeletedMembers(s, n, i, |s|);
    assert s[n..|s|] == s[n..] && Deleted(s, i)[n..|s| - 1] == Deleted(s, i)[n..];
  }

  // ---------------------------------------------------------------------------
  // The removal protocol
  // ---------------------------------------------------------------------------

  /** Counted for one channel: listed and freshly subscribed against live and waiting to be removed. */
  ghost predicate BalancedAt(list: seq<Case>, inbox: seq<Case>, live: multiset<Case>, removing: multiset<Case>, c: Case)
    requires |list| >= 1
  {
    && Subs(list)[c] + multiset(inbox)[c] == live[c] + removing[c] && removing[c] <= Subs(list)[c]
    && (c == RemoveSub ==> live[c] == removing[c] == 0)
  }

  /**
   Every listed or freshly subscribed channel stands for a live subscription or
   for one whose remover waits, and every waiting remover's channel is listed.
   */
  ghost predicate Balanced(list: seq<Case>, inbox: seq<Case>, live: multiset<Case>, removing: multiset<Case>)
    requires |list| >= 1
  {
    forall c {:trigger BalancedAt(list, inbox, live, removing, c)} :: BalancedAt(list, inbox, live, removing, c)
  }

  /** What a change of the four parts has to do to each channel. */
  lemma StillBalanced(list: seq<Case>, inbox: seq<Case>, live: multiset<Case>, removing: multiset<Case>,
                      list': seq<Case>, inbox': seq<Case>, live': multiset<Case>, removing': multiset<Case>)
    requires |list| >= 1 && |list'| >= 1 && Balanced(list, inbox, live, removing)
    requires forall c :: BalancedAt(list, inbox, live, removing, c) ==> BalancedAt(list', inbox', live', removing', c)
    ensures Balanced(list', inbox', live', removing')
  {
    forall c ensures BalancedAt(list', inbox', live', removing', c) {
      assert BalancedAt(list, inbox, live, removing, c);
    }
  }

  lemma SubscribeBalanced(list: seq<Case>, inbox: seq<Case>, live: multiset<Case>, removing: multiset<Case>, ch: Case)
    requires |list| >= 1 && Balanced(list, inbox, live, removing) && ch != RemoveSub
    ensures Balanced(list, inbox + [ch], live + multiset{ch}, removing)
  {
    StillBalanced(list, inbox, live, removing, list, inbox + [ch], live + multiset{ch}, removing);
  }

  lemma UnlistBalanced(list: seq<Case>, inbox: seq<Case>, live: multiset<Case>, removing: multiset<Case>, i: nat)
    requires |list| >= 1 && Balanced(list, inbox, live, removing) && i < |inbox| && inbox[i] in live
    ensures Balanced(list, inbox[..i] + inbox[i + 1..], live - multiset{inbox[i]}, removing)
  {
    UnlistMembers(inbox, i);
    StillBalanced(list, inbox, live, removing, list, inbox[..i] + inbox[i + 1..], live - multiset{inbox[i]}, removing);
  }

  /** A remover that does not find its channel in the inbox has it in the case list, beside those already waiting. */
  lemma WaitBalanced(list: seq<Case>, inbox: seq<Case>, live: multiset<Case>, removing: multiset<Case>, ch: Case)
    requires |list| >= 1 && Balanced(list, inbox, live, removing) && ch in live && ch !in inbox
    ensures Balanced(list, inbox, live - multiset{ch}, removing + multiset{ch})
  {
    assert multiset(inbox)[ch] == 0;
    StillBalanced(list, inbox, live, removing, list, inbox, live - multiset{ch}, removing + multiset{ch});
  }

  lemma WaiterListed(list: seq<Case>, inbox: seq<Case>, live: multiset<Case>, removing: multiset<Case>, ch: Case)
    requires |list| >= 1 && Balanced(list, inbox, live, removing) && ch in removing
    ensures ch in Subs(list) && ch != RemoveSub
  {
    assert BalancedAt(list, inbox, live, removing, ch);
  }

  lemma HearBalanced(list: seq<Case>, inbox: seq<Case>, live: multiset<Case>, removing: multiset<Case>, i: nat)
    requires 1 <= i < |list| && Balanced(list, inbox, live, removing) && list[i] in removing
    ensures Balanced(Deleted(list, i), inbox, live, removing - multiset{list[i]})
  {
    DeletedSubs(list, i);
    StillBalanced(list, inbox, live, removing, Deleted(list, i), inbox, live, removing - multiset{list[i]});
  }

  /** Serving a case only moves it. */
  lemma MoveBalanced(list: seq<Case>, inbox: seq<Case>, live: multiset<Case>, removing: multiset<Case>, i: nat, n: nat)
    requires 1 <= i < n <= |list| && Balanced(list, inbox, live, removing)
    ensures Balanced(Deactivated(list, i, n), inbox, live, removing)
  {
    DeactivatedSubs(list, i, n);
    StillBalanced(list, inbox, live, removing, Deactivated(list, i, n), inbox, live, removing);
  }

  lemma MergeBalanced(list: seq<Case>, inbox: seq<Case>, live: multiset<Case>, removing: multiset<Case>)
    requires |list| >= 1 && Balanced(list, inbox, live, removing)
    ensures Balanced(list + inbox, [], live, removing) && Subs(list + inbox) == Subs(list) + multiset(inbox)
  {
    assert (list + inbox)[1..] == list[1..] + inbox;
    StillBalanced(list, inbox, live, removing, list + inbox, [], live, removing);
  }

  lemma UnlistMembers(s: seq<Case>, i: nat)
    requires i < |s|
    ensures multiset(s[..i] + s[i + 1..]) == multiset(s) - multiset{s[i]}
  {
    assert s == s[..i] + [s[i]] + s[i + 1..];
  }

  lemma DeletedSubs(s: seq<Case>, i: nat)
    requires 1 <= i < |s|
    ensures Subs(Deleted(s, i)) == Subs(s) - multiset{s[i]}
  {
    DeletedMembers(s, 1, i, |s|);
    assert s[1..|s|] == s[1..] && Deleted(s, i)[1..|s| - 1] == Deleted(s, i)[1..];
  }

  // ---------------------------------------------------------------------------
  // The progress of a send
  // ---------------------------------------------------------------------------

  /** How a send stands. */
  datatype Account = Account(merged: multiset<Case>, delivered: multiset<Case>, missed: multiset<Case>)

  /**
   Counted for one channel, with the first `n` cases still active: everybody
   merged is active, has received the value, or was removed before; and the cases
   behind the active ones have received it.
   */
  ghost predicate TallyAt(s: seq<Case>, n: nat, t: Account, c: Case)
    requires 1 <= n <= |s|
  {
    t.merged[c] == Active(s, n)[c] + t.delivered[c] + t.missed[c] && Served(s, n)[c] <= t.delivered[c]
  }

  ghost predicate Progress(s: seq<Case>, n: nat, t: Account) {
    1 <= n <= |s| && forall c {:trigger TallyAt(s, n, t, c)} :: TallyAt(s, n, t, c)
  }

  lemma StartProgress(s: seq<Case>)
    requires |s| >= 1
    ensures Progress(s, |s|, Account(Subs(s), multiset{}, multiset{}))
  {
    assert s[|s|..] == [] && s[1..|s|] == s[1..];
  }

  /** With no active case left, everybody merged has received the value or was removed before, and nobody else has. */
  lemma EndProgress(s: seq<Case>, t: Account)
    requires Progress(s, 1, t)
    ensures t.merged == t.delivered + t.missed && Subs(s) <= t.delivered
  {
    assert s[1..1] == [];
    forall c ensures t.merged[c] == (t.delivered + t.missed)[c] && Subs(s)[c] <= t.delivered[c] {
      assert TallyAt(s, 1, t, c);
    }
  }

  /** A delivery to an active case and its move across the split. */
  lemma ServeProgress(s: seq<Case>, i: nat, n: nat, t: Account)
    requires Progress(s, n, t) && 1 <= i < n
    ensures Progress(Deactivated(s, i, n), n - 1, t.(delivered := t.delivered + multiset{s[i]}))
  {
    DeactivatedServed(s, i, n);
    DeactivatedActive(s, i, n);
    var r, m: nat, u := Deactivated(s, i, n), n - 1, t.(delivered := t.delivered + multiset{s[i]});
    forall c ensures TallyAt(r, m, u, c) {
      assert TallyAt(s, n, t, c);
    }
  }

  /** Removing an active case makes it a missed one. */
  lemma MissProgress(s: seq<Case>, i: nat, n: nat, t: Account)
    requires Progress(s, n, t) && 1 <= i < n
    ensures Progress(Deleted(s, i), n - 1, t.(missed := t.missed + multiset{s[i]}))
  {
    DeletedActive(s, i, n);
    var r, m: nat, u := Deleted(s, i), n - 1, t.(missed := t.missed + multiset{s[i]});
    forall c ensures TallyAt(r, m, u, c) {
      assert TallyAt(s, n, t, c);
    }
  }

  /** Removing a served case changes nothing about the deliveries. */
  lemma ForgetProgress(s: seq<Case>, i: nat, n: nat, t: Account)
    requires Progress(s, n, t) && n <= i < |s|
    ensures Progress(Deleted(s, i), n, t)
  {
    DeletedServed(s, i, n);
    forall c ensures TallyAt(Deleted(s, i), n, t, c) {
      assert TallyAt(s, n, t, c);
    }
  }

  /** Counted for one channel: who waits to be removed or was removed unserved has begun to unsubscribe. */
  ghost predicate LeftAt(removing: multiset<Case>, missed: multiset<Case>, left: multiset<Case>, c: Case) {
    removing[c] + missed[c] <= left[c]
  }

  ghost predicate AllLeft(removing: multiset<Case>, missed: multiset<Case>, left: multiset<Case>) {
    forall c {:trigger LeftAt(removing, missed, left, c)} :: LeftAt(removing, missed, left, c)
  }

  lemma StartLeft(removing: multiset<Case>)
    ensures AllLeft(removing, multiset{}, removing)
  {
  }

  lemma WaiterLeaves(removing: multiset<Case>, missed: multiset<Case>, left: multiset<Case>, ch: Case)
    requires AllLeft(removing, missed, left)
    ensures AllLeft(removing + multiset{ch}, missed, left + multiset{ch})
  {
    forall c ensures LeftAt(removing + multiset{ch}, missed, left + multiset{ch}, c) {
      assert LeftAt(removing, missed, left, c);
    }
  }

  /** Hearing a remover, its case served or not. */
  lemma HeardLeft(removing: multiset<Case>, missed: multiset<Case>, left: multiset<Case>, ch: Case)
    requires AllLeft(removing, missed, left) && ch in removing
    ensures AllLeft(removing - multiset{ch}, missed, left)
    ensures AllLeft(removing - multiset{ch}, missed + multiset{ch}, left)
  {
    forall c ensures LeftAt(removing - multiset{ch}, missed, left, c)
             ensures LeftAt(removing - multiset{ch}, missed + multiset{ch}, left, c) {
      assert LeftAt(removing, missed, left, c);
    }
  }

  lemma EndLeft(removing: multiset<Case>, missed: multiset<Case>, left: multiset<Case>)
    requires AllLeft(removing, missed, left)
    ensures missed <= left
  {
    forall c ensures missed[c] <= left[c] {
      assert LeftAt(removing, missed, left, c);
    }
  }

  // ---------------------------------------------------------------------------
  // The feed
  // ---------------------------------------------------------------------------

  class Feed {
    /** The backing array of the case list and the list's length. */
    var cases: array<Case>
    var count: nat
    /** Channels subscribed since the last send. */
    var inbox: seq<Case>
    /** Channels whose removers wait to be heard by a send or to get the send lock. */
    var removing: multiset<Case>
    /** Subscriptions not yet cancelled. */
    var live: multiset<Case>
    /** Of the latest send: whom it was for, who has received the value how often, and who was removed before. */
    ghost var sent: Account
    /** The removals that were waiting when the latest send started or have begun to wait since. */
    ghost var left: multiset<Case>
    /** The list as a value. */
    ghost var list: seq<Case>

    ghost predicate Backed()
      reads this, cases
    {
      1 <= |list| == count <= cases.Length && forall k :: 0 <= k < count ==> cases[k] == list[k]
    }

    ghost predicate Valid()
      reads this, cases
    {
      Backed() && list[0] == RemoveSub && Balanced(list, inbox, live, removing)
    }

    constructor ()
      ensures Valid() && fresh(cases) && list == [RemoveSub] && inbox == [] && live == removing == multiset{}
    {
      cases := new Case[1](_ => RemoveSub);
      count, inbox, removing, live := 1, [], multiset{}, multiset{};
      sent, left := Account(multiset{}, multiset{}, multiset{}), multiset{};
      list := [RemoveSub];
      new;
      assert list[1..] == [];
    }

    method Subscribe(id: nat)
      requires Valid()
      modifies this`inbox, this`live
      ensures Valid() && inbox == old(inbox) + [Chan(id)] && live == old(live) + multiset{Chan(id)}
    {
      SubscribeBalanced(list, inbox, live, removing, Chan(id));
      inbox := inbox + [Chan(id)];
      live := live + multiset{Chan(id)};
    }

    /** The first half of a removal: from the inbox at once, or else waiting. */
    method BeginRemove(id: nat)
      requires Valid() && Chan(id) in live
      modifies this`inbox, this`removing, this`live, this`left
      ensures Valid() && live == old(live) - multiset{Chan(id)}
      ensures if Chan(id) in old(inbox) then removing == old(removing) &&
                multiset(inbox) == multiset(old(inbox)) - multiset{Chan(id)}
              else inbox == old(inbox) && removing == old(removing) + multiset{Chan(id)}
      ensures left == if Chan(id) in old(inbox) then old(left) else old(left) + multiset{Chan(id)}
    {
      var index := FindIn(inbox, Chan(id));
      if index != -1 {
        Unlist(index);
      } else {
        Wait(Chan(id));
      }
    }

    method Unlist(index: nat)
      requires Valid() && index < |inbox| && inbox[index] in live
      modifies this`inbox, this`live
      ensures Valid() && live == old(live) - multiset{old(inbox)[index]}
      ensures multiset(inbox) == multiset(old(inbox)) - multiset{old(inbox)[index]}
    {
      UnlistBalanced(list, inbox, live, removing, index);
      UnlistMembers(inbox, index);
      live := live - multiset{inbox[index]};
      inbox := inbox[..index] + inbox[index + 1..];
    }

    method Wait(ch: Case)
      requires Valid() && ch in live && ch !in inbox
      modifies this`removing, this`live, this`left
      ensures Valid() && live == old(live) - multiset{ch}
      ensures removing == old(removing) + multiset{ch} && left == old(left) + multiset{ch}
    {
      WaitBalanced(list, inbox, live, removing, ch);
      removing, left := removing + multiset{ch}, left + multiset{ch};
      live := live - multiset{ch};
    }

    /** The second half when no send is in progress. */
    method RemoveIdle(id: nat)
      requires Valid() && Chan(id) in removing
      modifies this`count, this`list, this`removing, cases
      ensures Valid() && removing == old(removing) - multiset{Chan(id)}
      ensures Subs(list) == Subs(old(list)) - multiset{Chan(id)}
    {
      ghost var s := list;
      var index := TakeOut(Chan(id));
      DeletedSubs(s, index);
    }

    /** Takes the channel of a waiting remover out of the case list, where it always is. */
    method TakeOut(ch: Case) returns (index: nat)
      requires Valid() && ch in removing
      modifies this`count, this`list, this`removing, cases
      ensures Valid() && removing == old(removing) - multiset{ch}
      ensures 1 <= index < old(count) && old(list)[index] == ch && list == Deleted(old(list), index)
    {
      WaiterListed(list, inbox, live, removing, ch);
      index := Find(ch);
      HearBalanced(list, inbox, live, removing, index);
      DeleteAt(index);
      removing := removing - multiset{ch};
    }

    /** Finds a channel that is known to be in the list: removal never misses. */
    method Find(ch: Case) returns (index: nat)
      requires Valid() && ch in Subs(list) && ch != RemoveSub
      ensures 1 <= index < count && list[index] == ch
    {
      assert ch in list[1..];
      ghost var k :| 0 <= k < |list[1..]| && list[1..][k] == ch;
      assert list[k + 1] == ch;
      index := FindIn(cases[..count], ch);
    }

    /** Removes a case by shifting the later ones down. */
    method DeleteAt(index: nat)
      requires Backed() && 1 <= index < count
      modifies this`count, this`list, cases
      ensures Backed() && list == Deleted(old(list), index)
    {
      var i := index;
      while i + 1 < count
        invariant index <= i < count && count == old(count) <= cases.Length && cases == old(cases) && list == old(list)
        invariant forall k :: 0 <= k < index ==> cases[k] == list[k]
        invariant forall k :: index <= k < i ==> cases[k] == list[k + 1]
        invariant forall k :: i <= k < count ==> cases[k] == list[k]
      {
        cases[i] := cases[i + 1];
        i := i + 1;
      }
      count := count - 1;
      list := Deleted(list, index);
      forall k | 0 <= k < count ensures cases[k] == list[k] {
        assert list[k] == old(list)[if k < index then k else k + 1];
      }
    }

    /** Swaps a case out of the first `n`. */
    method Deactivate(i: nat, n: nat)
      requires Backed() && 1 <= i < n <= count
      modifies this`list, cases
      ensures Backed() && list == Deactivated(old(list), i, n)
    {
      cases[i], cases[n - 1] := cases[n - 1], cases[i];
      list := Deactivated(list, i, n);
    }

    /** What other goroutines may do meanwhile: subscribe, and begin to unsubscribe. */
    method Interfere()
      requires Valid() && AllLeft(removing, sent.missed, left)
      modifies this`inbox, this`removing, this`live, this`left
      ensures Valid() && AllLeft(removing, sent.missed, left)
    {
      var k: nat := *;
      while k > 0
        invariant Valid() && AllLeft(removing, sent.missed, left)
      {
        var subscribes: bool := *;
        var id: nat := *;
        if subscribes {
          Subscribe(id);
        } else if Chan(id) in live {
          WaiterLeaves(removing, sent.missed, left, Chan(id));
          BeginRemove(id);
        }
        k := k - 1;
      }
    }

    // -------------------------------------------------------------------------
    // Sending
    // -------------------------------------------------------------------------

    /** How a send stands with the first `n` cases active; whoever was removed unserved had begun to unsubscribe. */
    ghost predicate Sending(n: nat, nsent: nat)
      reads this, cases
    {
      Valid() && Progress(list, n, sent) && nsent == |sent.delivered| && AllLeft(removing, sent.missed, left)
    }

    /** A channel takes the value without waiting, or does not. */
    method TrySend(i: nat) returns (taken: bool)
      requires Backed() && i < count
      modifies this`sent
      ensures sent == if taken then old(sent).(delivered := old(sent).delivered + multiset{list[i]}) else old(sent)
    {
      taken := *;
      if taken {
        sent := sent.(delivered := sent.delivered + multiset{cases[i]});
      }
    }

    /** Waits for a remover, which makes the choice 0, or for one of the first `n` channels to take the value. */
    method Select(n: nat) returns (chosen: nat)
      requires Backed() && 1 < n <= count
      modifies this`sent
      ensures chosen < n && (chosen == 0 ==> removing != multiset{})
      ensures sent == if chosen == 0 then old(sent)
                      else old(sent).(delivered := old(sent).delivered + multiset{list[chosen]})
    {
      assert 1 < n;
      chosen :| chosen < n && (chosen == 0 ==> removing != multiset{});
      if chosen != 0 {
        sent := sent.(delivered := sent.delivered + multiset{cases[chosen]});
      }
    }

    /** Takes a case whose channel has just taken the value out of the active ones. */
    method Serve(i: nat, n: nat, ghost before: Account, ghost nsent: nat)
      requires Valid() && 1 <= i < n && Progress(list, n, before) && nsent == |before.delivered|
      requires AllLeft(removing, before.missed, left)
      requires sent == before.(delivered := before.delivered + multiset{list[i]})
      modifies this`list, cases
      ensures Sending(n - 1, nsent + 1) && count == old(count)
    {
      ServeProgress(list, i, n, before);
      MoveBalanced(list, inbox, live, removing, i, n);
      Deactivate(i, n);
    }

    /** Offers the value to every active case once, without waiting. */
    method TrySends(n: nat, nsent: nat) returns (n': nat, nsent': nat)
      requires Sending(n, nsent)
      modifies this`sent, this`list, cases
      ensures Sending(n', nsent') && n' <= n && sent.merged == old(sent).merged
    {
      n', nsent' := n, nsent;
      var i := 1;
      while i < n'
        invariant 1 <= i <= n' <= n && Sending(n', nsent') && sent.merged == old(sent).merged
        decreases n' - i
      {
        ghost var before := sent;
        var taken := TrySend(i);
        if taken {
          Serve(i, n', before, nsent');
          n', nsent' := n' - 1, nsent' + 1;
        } else {
          i := i + 1;
        }
      }
    }

    /** Hears one remover: its channel leaves the case list, served or not. */
    method HearRemoval(n: nat, ghost nsent: nat) returns (n': nat)
      requires Sending(n, nsent) && removing != multiset{}
      modifies this`count, this`list, this`removing, this`sent, cases
      ensures Sending(n', nsent) && n' <= n && count < old(count) && sent.merged == old(sent).merged
    {
      var ch :| ch in removing;
      HeardLeft(removing, sent.missed, left, ch);
      ghost var s := list;
      var index := TakeOut(ch);
      if index < n {
        MissProgress(s, index, n, sent);
        n', sent := n - 1, sent.(missed := sent.missed + multiset{s[index]});
      } else {
        ForgetProgress(s, index, n, sent);
        n' := n;
      }
    }

    /** Waits until some active case accepts the value or a remover speaks up. */
    method SelectOne(n: nat, nsent: nat) returns (n': nat, nsent': nat)
      requires Sending(n, nsent) && n > 1
      modifies this`count, this`list, this`inbox, this`removing, this`live, this`left, this`sent, cases
      ensures Sending(n', nsent') && n' + count < n + old(count) && sent.merged == old(sent).merged
    {
      Interfere();
      n', nsent' := n, nsent;
      ghost var before := sent;
      var chosen := Select(n);
      if chosen == 0 {
        n' := HearRemoval(n, nsent);
      } else {
        Serve(chosen, n, before, nsent);
        n', nsent' := n - 1, nsent + 1;
      }
    }

    /**
     Delivers to everybody in the case list.  Whatever receivers are ready when,
     and whoever unsubscribes meanwhile, the value is delivered exactly once to
     each case that was not removed first, and to nobody else; who was removed
     first had begun to unsubscribe; the count is that of the deliveries, and
     everybody still listed has received it.
     */
    method Deliver() returns (nsent: nat)
      requires Valid()
      modifies this`count, this`list, this`inbox, this`removing, this`live, this`left, this`sent, cases
      ensures Valid() && sent.merged == Subs(old(list))
      ensures sent.merged == sent.delivered + sent.missed && sent.missed <= left
      ensures Subs(list) <= sent.delivered && nsent == |sent.delivered|
    {
      sent, left := Account(Subs(list), multiset{}, multiset{}), removing;
      StartProgress(list);
      StartLeft(removing);
      nsent := SendAll();
      EndProgress(list, sent);
      EndLeft(removing, sent.missed, left);
    }

    /** The delivery loop: until no case is active, offers the value to all active ones, then waits for one. */
    method SendAll() returns (nsent: nat)
      requires Sending(count, 0)
      modifies this`count, this`list, this`inbox, this`removing, this`live, this`left, this`sent, cases
      ensures Sending(1, nsent) && sent.merged == old(sent).merged
    {
      var n: nat := count;
      n, nsent := TrySends(n, 0);
      while n > 1
        invariant Sending(n, nsent) && sent.merged == old(sent).merged
        decreases n + count
      {
        n, nsent := SelectOne(n, nsent);
        n, nsent := TrySends(n, nsent);
      }
    }

    /** Takes over the subscriptions made since the last send. */
    method Merge()
      requires Valid()
      modifies this`cases, this`count, this`list, this`inbox
      ensures Valid() && fresh(cases) && inbox == [] && list == old(list) + old(inbox)
      ensures Subs(list) == Subs(old(list)) + multiset(old(inbox))
    {
      MergeBalanced(list, inbox, live, removing);
      var all := cases[..count] + inbox;
      cases := new Case[|all|](i requires 0 <= i < |all| => all[i]);
      count, inbox, list := |all|, [], list + inbox;
      assert all == list;
    }

    /** Sends a value: merges the new subscriptions and delivers to all. */
    method Send() returns (nsent: nat)
      requires Valid()
      modifies this, cases
      ensures Valid() && fresh(cases) && sent.merged == Subs(old(list)) + multiset(old(inbox))
      ensures sent.merged == sent.delivered + sent.missed && sent.missed <= left
      ensures Subs(list) <= sent.delivered && nsent == |sent.delivered|
    {
      Merge();
      nsent := Deliver();
    }
  }

  /** The first index of a channel in a list, or -1. */
  method FindIn(s: seq<Case>, ch: Case) returns (index: int)
    ensures -1 <= index < |s|
    ensures if index == -1 then ch !in s else s[index] == ch && ch !in s[..index]
  {
    index := 0;
    while index < |s|
      invariant 0 <= index <= |s| && ch !in s[..index]
    {
      if s[index] == ch {
        return;
      }
      assert s[..index + 1] == s[..index] + [s[index]];
      index := index + 1;
    }
    assert s[..|s|] == s;
    index := -1;
  }
}
