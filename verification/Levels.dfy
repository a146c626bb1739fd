/**
 How the pool shares its executable slots.  Cutting the longest lists of the
 remote accounts one transaction at a time is the same as lowering one common
 level: every remote list ends at its own length or at the level, whichever is
 less.
 */
module Levels {
  import opened Options
  import opened Heap
  import opened TxList
  import opened PoolState

  ghost function Slots(m: map<Addr, Items>): set<(Addr, nat)> {
    set a, n | a in m && n in m[a] :: (a, n)
  }

  /** How many transactions the lists hold together. */
  ghost function Total(m: map<Addr, Items>): nat {
    |Slots(m)|
  }

  ghost function Pairs(a: Addr, keys: set<nat>): set<(Addr, nat)> {
    set n | n in keys :: (a, n)
  }

  lemma {:induction false} PairsSize(a: Addr, keys: set<nat>)
    ensures |Pairs(a, keys)| == |keys|
    decreases |keys|
  {
    if keys != {} {
      var n :| n in keys;
      PairsSize(a, keys - {n});
      assert Pairs(a, keys) == Pairs(a, keys - {n}) + {(a, n)};
    } else {
      assert Pairs(a, keys) == {};
    }
  }

  lemma TotalTake(m: map<Addr, Items>, a: Addr)
    requires a in m
    ensures Total(m) == |m[a]| + Total(m - {a})
  {
    PairsSize(a, m[a].Keys);
    assert Slots(m) == Pairs(a, m[a].Keys) + Slots(m - {a});
    assert Pairs(a, m[a].Keys) !! Slots(m - {a});
  }

  /** Counts the transactions of all lists. */
  method Count(m: map<Addr, Items>) returns (total: nat)
    ensures total == Total(m)
  {
    total := 0;
    var todo := m;
    while todo != map[]
      invariant total + Total(todo) == Total(m)
      decreases |todo.Keys|
    {
      var a :| a in todo;
      TotalTake(todo, a);
      total := total + |todo[a]|;
      assert (todo - {a}).Keys == todo.Keys - {a};
      todo := todo - {a};
    }
    assert Slots(todo) == {};
  }

  lemma TotalDrop(m: map<Addr, Items>, a: Addr, n: nat)
    requires a in m && n in m[a]
    ensures Total(m[a := m[a] - {n}]) == Total(m) - 1
  {
    var r := m[a := m[a] - {n}];
    forall b, k | (b, k) in Slots(m) && (b, k) != (a, n) ensures (b, k) in Slots(r) {
    }
    assert Slots(r) == Slots(m) - {(a, n)};
  }

  lemma TotalMono(m: map<Addr, Items>, n: map<Addr, Items>)
    requires m.Keys == n.Keys && forall a :: a in m ==> m[a].Keys <= n[a].Keys
    ensures Total(m) <= Total(n)
  {
    assert Slots(m) <= Slots(n);
    assert Slots(n) == Slots(m) + (Slots(n) - Slots(m));
  }

  /** The length a list is cut to at a level; lists of local accounts are never cut. */
  function Length(l: Items, local: bool, level: nat): nat {
    if local || |l| <= level then |l| else level
  }

  /** A list cut to the level, from the high nonces. */
  ghost predicate CutTo(l: Items, r: Items, local: bool, level: nat) {
    |r| == Length(l, local, level) && IsLowest(l, r, |r|)
  }

  ghost predicate LevelAt(m: map<Addr, Items>, n: map<Addr, Items>, locals: set<Addr>, level: nat, a: Addr) {
    a in m ==> a in n && CutTo(m[a], n[a], a in locals, level)
  }

  /** `n` is `m` with every remote list cut to the level. */
  ghost predicate Levelled(m: map<Addr, Items>, n: map<Addr, Items>, locals: set<Addr>, level: nat) {
    n.Keys == m.Keys && forall a {:trigger LevelAt(m, n, locals, level, a)} :: LevelAt(m, n, locals, level, a)
  }

  lemma LowerIsWithin(l: Items, r: Items, s: Items, local: bool, i: nat, j: nat)
    requires CutTo(l, r, local, i) && CutTo(l, s, local, j) && |r| <= |s|
    ensures r.Keys <= s.Keys
  {
    if n :| n in r && n !in s {
      assert forall k :: k in s ==> k in r;
      SubsetSize(s.Keys, r.Keys);
    }
  }

  /** A lower level holds no more. */
  lemma LevelsOrdered(m: map<Addr, Items>, k: map<Addr, Items>, n: map<Addr, Items>, locals: set<Addr>, i: nat, j: nat)
    requires Levelled(m, k, locals, i) && Levelled(m, n, locals, j) && (i <= j || NoneAbove(m, locals, j))
    ensures Total(k) <= Total(n)
  {
    forall a | a in k ensures k[a].Keys <= n[a].Keys {
      assert LevelAt(m, k, locals, i, a) && LevelAt(m, n, locals, j, a);
      LowerIsWithin(m[a], k[a], n[a], a in locals, i, j);
    }
    TotalMono(k, n);
  }

  ghost predicate NoneAbove(m: map<Addr, Items>, locals: set<Addr>, level: nat) {
    forall a :: a in m && a !in locals ==> |m[a]| <= level
  }

  /** At a level no remote list exceeds, nothing is cut. */
  lemma LevelTop(m: map<Addr, Items>, locals: set<Addr>, level: nat)
    requires NoneAbove(m, locals, level)
    ensures Levelled(m, m, locals, level)
  {
    forall a ensures LevelAt(m, m, locals, level, a) {
      if a in m { LowestRefl(m[a]); }
    }
  }

  /** At the next level up the lists would exceed the limit. */
  ghost predicate Overflows(m: map<Addr, Items>, locals: set<Addr>, global: nat, level: nat) {
    exists n :: Levelled(m, n, locals, level) && Total(n) > global
  }

  /**
   The outcome of truncation: the lists are cut to a level not below the
   guaranteed slots; the total fits, or the level is as low as allowed; and one
   level higher would not have fitted, unless nothing had to be cut.
   */
  ghost predicate Truncated(m: map<Addr, Items>, n: map<Addr, Items>, locals: set<Addr>, global: nat, slots: nat,
                            level: nat) {
    && Levelled(m, n, locals, level) && slots <= level
    && (Total(n) <= global || level == slots)
    && (NoneAbove(m, locals, level) || Overflows(m, locals, global, level + 1))
  }

  /**
   What the level means for the accounts: within the limit or every remote
   account at its guaranteed slots; no remote account cut below them; local ones
   untouched; all cut lists equally long, and no shorter than any uncut remote one.
   */
  lemma TruncationIsFair(m: map<Addr, Items>, n: map<Addr, Items>, locals: set<Addr>, global: nat, slots: nat,
                         level: nat, a: Addr, b: Addr)
    requires Truncated(m, n, locals, global, slots, level) && a in m && b in m
    ensures Total(n) <= global || (a !in locals ==> |n[a]| <= slots)
    ensures a in locals ==> n[a] == m[a]
    ensures n[a] != m[a] ==> slots <= |n[a]| < |m[a]| && IsLowest(m[a], n[a], |n[a]|)
    ensures n[a] != m[a] && n[b] != m[b] ==> |n[a]| == |n[b]|
    ensures n[a] != m[a] && n[b] == m[b] && b !in locals ==> |m[b]| <= |n[a]|
  {
    assert LevelAt(m, n, locals, level, a) && LevelAt(m, n, locals, level, b);
    LowestFits(m[a], n[a], |n[a]|);
    LowestFits(m[b], n[b], |n[b]|);
  }

  /** No cut is deeper than needed: whatever other level fits, truncation keeps at least as much. */
  lemma TruncationIsLeast(m: map<Addr, Items>, n: map<Addr, Items>, locals: set<Addr>, global: nat, slots: nat,
                          level: nat,
                          k: map<Addr, Items>, other: nat)
    requires Truncated(m, n, locals, global, slots, level)
    requires Levelled(m, k, locals, other) && Total(k) <= global
    ensures Total(k) <= Total(n)
  {
    if other <= level || NoneAbove(m, locals, level) {
      LevelsOrdered(m, k, n, locals, other, level);
    } else {
      var above :| Levelled(m, above, locals, level + 1) && Total(above) > global;
      LevelsOrdered(m, above, k, locals, level + 1, other);
    }
  }

  // ---------------------------------------------------------------------------
  // One round of cuts
  // ---------------------------------------------------------------------------

  ghost predicate Distinct(s: seq<Addr>) {
    forall i, j :: 0 <= i < j < |s| ==> s[i] != s[j]
  }

  /** The lists of these accounts all have the level's length. */
  ghost predicate AtLevel(cur: map<Addr, Items>, locals: set<Addr>, offs: seq<Addr>, level: nat) {
    forall i :: 0 <= i < |offs| ==> offs[i] in cur && offs[i] !in locals && |cur[offs[i]]| == level
  }

  ghost predicate Below(cur: map<Addr, Items>, locals: set<Addr>, bound: nat, a: Addr) {
    a in cur && a !in locals ==> |cur[a]| <= bound
  }

  /** Every other remote list is no longer than the bound. */
  ghost predicate RestBelow(cur: map<Addr, Items>, locals: set<Addr>, offs: seq<Addr>, bound: nat) {
    forall a {:trigger Below(cur, locals, bound, a)} :: a !in offs ==> Below(cur, locals, bound, a)
  }

  ghost predicate SameList(s: map<Addr, Items>, cur: map<Addr, Items>, a: Addr) {
    a in s ==> a in cur && cur[a] == s[a]
  }

  ghost predicate SameRest(s: map<Addr, Items>, cur: map<Addr, Items>, offs: seq<Addr>) {
    s.Keys == cur.Keys && forall a {:trigger SameList(s, cur, a)} :: a !in offs ==> SameList(s, cur, a)
  }

  lemma SameRestTrans(s: map<Addr, Items>, t: map<Addr, Items>, u: map<Addr, Items>, offs: seq<Addr>)
    requires SameRest(s, t, offs) && SameRest(t, u, offs)
    ensures SameRest(s, u, offs)
  {
    forall a | a !in offs ensures SameList(s, u, a) {
      assert SameList(s, t, a) && SameList(t, u, a);
    }
  }

  /** Midway through a round: the first `i` lists have been cut by one. */
  ghost predicate Midway(m: map<Addr, Items>, s: map<Addr, Items>, cur: map<Addr, Items>, offs: seq<Addr>, i: nat,
                         level: nat)
    requires i <= |offs|
  {
    && SameRest(s, cur, offs[..i])
    && forall j :: 0 <= j < i ==> offs[j] in cur && offs[j] in m && CutTo(m[offs[j]], cur[offs[j]], false, level)
  }

  lemma MidwayStep(m: map<Addr, Items>, s: map<Addr, Items>, cur: map<Addr, Items>, locals: set<Addr>,
                   offs: seq<Addr>, i: nat, level: nat, top: nat)
    requires Levelled(m, s, locals, level + 1) && Distinct(offs) && AtLevel(s, locals, offs, level + 1)
    requires i < |offs| && Midway(m, s, cur, offs, i, level)
    requires offs[i] in cur && IsGreatest(cur[offs[i]], top)
    ensures Midway(m, s, cur[offs[i] := cur[offs[i]] - {top}], offs, i + 1, level)
  {
    var a := offs[i];
    assert a !in offs[..i];
    assert SameList(s, cur, a) && LevelAt(m, s, locals, level + 1, a);
    LowestStep(m[a], cur[a], top);
    var next := cur[a := cur[a] - {top}];
    assert offs[..i + 1] == offs[..i] + [a];
    assert CutTo(m[a], next[a], false, level);
    forall b | b !in offs[..i + 1] ensures SameList(s, next, b) {
      assert SameList(s, cur, b);
    }
  }

  /** After a whole round everything is one level lower. */
  lemma RoundDone(m: map<Addr, Items>, s: map<Addr, Items>, cur: map<Addr, Items>, locals: set<Addr>,
                  offs: seq<Addr>, level: nat)
    requires Levelled(m, s, locals, level + 1) && AtLevel(s, locals, offs, level + 1) &&
               RestBelow(s, locals, offs, level)
    requires Midway(m, s, cur, offs, |offs|, level)
    ensures Levelled(m, cur, locals, level) && AtLevel(cur, locals, offs, level) && SameRest(s, cur, offs)
  {
    assert offs[..|offs|] == offs;
    forall a ensures LevelAt(m, cur, locals, level, a) {
      if a in offs {
        var j :| 0 <= j < |offs| && offs[j] == a;
        assert CutTo(m[offs[j]], cur[offs[j]], false, level);
      } else {
        assert SameList(s, cur, a) && LevelAt(m, s, locals, level + 1, a) && Below(s, locals, level, a);
      }
    }
    forall j | 0 <= j < |offs| ensures |cur[offs[j]]| == level {
      assert |s[offs[j]]| == level + 1 && LevelAt(m, s, locals, level + 1, offs[j]);
      assert CutTo(m[offs[j]], cur[offs[j]], false, level);
      LowestFits(m[offs[j]], s[offs[j]], level + 1);
    }
  }

  lemma RestSame(s: map<Addr, Items>, cur: map<Addr, Items>, locals: set<Addr>, offs: seq<Addr>, bound: nat)
    requires SameRest(s, cur, offs) && RestBelow(s, locals, offs, bound)
    ensures RestBelow(cur, locals, offs, bound)
  {
    forall a | a !in offs ensures Below(cur, locals, bound, a) {
      assert SameList(s, cur, a) && Below(s, locals, bound, a);
    }
  }

  lemma BelowMore(cur: map<Addr, Items>, locals: set<Addr>, offs: seq<Addr>, i: nat, j: nat)
    requires RestBelow(cur, locals, offs, i) && i <= j
    ensures RestBelow(cur, locals, offs, j)
  {
    forall a | a !in offs ensures Below(cur, locals, j, a) {
      assert Below(cur, locals, i, a);
    }
  }

  // ---------------------------------------------------------------------------
  // The accounts above their guaranteed slots, longest list first
  // ---------------------------------------------------------------------------

  ghost predicate Spams(cur: map<Addr, Items>, locals: set<Addr>, slots: nat, level: nat, a: Addr) {
    a in cur && a !in locals && slots < |cur[a]| <= level
  }

  /**
   The accounts still to be looked at are those above their slots that are not
   offenders yet; none exceeds the level.
   */
  ghost predicate Shares(cur: map<Addr, Items>, locals: set<Addr>, slots: nat, offs: seq<Addr>, spammers: set<Addr>,
                         level: nat) {
    && Distinct(offs) && slots <= level && (offs != [] ==> slots < level)
    && (forall a {:trigger Spams(cur, locals, slots, level, a)} :: a in spammers ==>
        Spams(cur, locals, slots, level, a) && a !in offs)
    && (forall a {:trigger Below(cur, locals, slots, a)} :: a !in offs && a !in spammers ==>
        Below(cur, locals, slots, a))
  }

  /** Before the first offender the level is the longest list's length. */
  ghost predicate TopLevel(cur: map<Addr, Items>, slots: nat, spammers: set<Addr>, level: nat) {
    if spammers == {} then level == slots else exists a :: a in spammers && a in cur && |cur[a]| == level
  }

  ghost predicate Longest(cur: map<Addr, Items>, spammers: set<Addr>, a: Addr) {
    a in spammers && forall b | b in spammers :: |Of(cur, b)| <= |Of(cur, a)|
  }

  lemma {:induction false} LongestExists(cur: map<Addr, Items>, spammers: set<Addr>)
    requires spammers != {}
    ensures exists a :: Longest(cur, spammers, a)
    decreases |spammers|
  {
    var b :| b in spammers;
    var rest := spammers - {b};
    if rest == {} {
      assert spammers == {b};
      assert Longest(cur, spammers, b);
    } else {
      LongestExists(cur, rest);
      var a :| Longest(cur, rest, a);
      assert Longest(cur, spammers, if |Of(cur, a)| < |Of(cur, b)| then b else a);
    }
  }

  /** Takes the account with the longest list. */
  method PopLongest(cur: map<Addr, Items>, spammers: set<Addr>) returns (a: Addr)
    requires spammers != {}
    ensures Longest(cur, spammers, a)
  {
    a :| a in spammers;
    var todo := spammers - {a};
    while todo != {}
      invariant todo <= spammers && a in spammers
      invariant forall b :: b in spammers && b !in todo ==> |Of(cur, b)| <= |Of(cur, a)|
      decreases |todo|
    {
      var b :| b in todo;
      if |Of(cur, a)| < |Of(cur, b)| {
        a := b;
      }
      todo := todo - {b};
    }
  }

  lemma SharesStart(cur: map<Addr, Items>, locals: set<Addr>, slots: nat, spammers: set<Addr>) returns (level: nat)
    requires spammers == set a | a in cur && a !in locals && |cur[a]| > slots
    ensures Shares(cur, locals, slots, [], spammers, level) && TopLevel(cur, slots, spammers, level)
    ensures Levelled(cur, cur, locals, level) && NoneAbove(cur, locals, level)
  {
    level := slots;
    if spammers != {} {
      LongestExists(cur, spammers);
      var a :| Longest(cur, spammers, a);
      level := |cur[a]|;
    }
    forall b | b in cur && b !in locals ensures |cur[b]| <= level {
      assert b in spammers ==> |Of(cur, b)| <= level;
    }
    LevelTop(cur, locals, level);
  }

  /** The others are no longer than the offender taken next. */
  lemma NextBelow(cur: map<Addr, Items>, locals: set<Addr>, slots: nat, offs: seq<Addr>, spammers: set<Addr>,
                  level: nat, a: Addr)
    requires Shares(cur, locals, slots, offs, spammers, level) && Longest(cur, spammers, a)
    ensures a in cur && a !in locals && slots < |cur[a]| <= level && RestBelow(cur, locals, offs, |cur[a]|)
    ensures Distinct(offs + [a]) && a !in offs
    ensures TopLevel(cur, slots, spammers, level) ==> |cur[a]| == level
  {
    assert Spams(cur, locals, slots, level, a);
    forall b | b !in offs ensures Below(cur, locals, |cur[a]|, b) {
      if b in spammers {
        assert |Of(cur, b)| <= |Of(cur, a)| && Spams(cur, locals, slots, level, b);
      } else {
        assert Below(cur, locals, slots, b);
      }
    }
    if TopLevel(cur, slots, spammers, level) {
      var b :| b in spammers && b in cur && |cur[b]| == level;
      assert |Of(cur, b)| <= |Of(cur, a)|;
    }
  }

  /** Once the earlier offenders are down to a level not below the new one's, the new one joins them. */
  lemma OffenderJoins(s: map<Addr, Items>, cur: map<Addr, Items>, locals: set<Addr>, slots: nat, offs: seq<Addr>,
                      spammers: set<Addr>,
                      level: nat, a: Addr, lower: nat)
    requires Shares(s, locals, slots, offs, spammers, level) && Longest(s, spammers, a) && SameRest(s, cur, offs)
    requires a in s && |s[a]| <= lower && AtLevel(cur, locals, offs, lower)
    ensures Shares(cur, locals, slots, offs + [a], spammers - {a}, lower)
    ensures |s[a]| == lower ==> AtLevel(cur, locals, offs + [a], lower)
  {
    NextBelow(s, locals, slots, offs, spammers, level, a);
    assert SameList(s, cur, a);
    forall b | b in spammers - {a} ensures Spams(cur, locals, slots, lower, b) && b !in offs + [a] {
      assert Spams(s, locals, slots, level, b) && SameList(s, cur, b) && |Of(s, b)| <= |Of(s, a)|;
    }
    forall b | b !in offs + [a] && b !in spammers - {a} ensures Below(cur, locals, slots, b) {
      assert SameList(s, cur, b) && Below(s, locals, slots, b);
    }
  }

  lemma SmallTotal(m: map<Addr, Items>, locals: set<Addr>, level: nat)
    requires Total(m) <= level
    ensures Levelled(m, m, locals, level) && NoneAbove(m, locals, level)
  {
    forall a | a in m ensures |m[a]| <= level {
      TotalTake(m, a);
    }
    LevelTop(m, locals, level);
  }

  // ---------------------------------------------------------------------------
  // The queue limit
  // ---------------------------------------------------------------------------

  ghost predicate SameBut(m: map<Addr, Items>, n: map<Addr, Items>, a: Addr) {
    forall b {:trigger Of(n, b)} :: b != a ==> Of(n, b) == Of(m, b)
  }

  /** `n` is `m` with the lists of these accounts emptied. */
  ghost predicate Popped(m: map<Addr, Items>, n: map<Addr, Items>, gone: set<Addr>) {
    forall b {:trigger Of(n, b)} :: Of(n, b) == if b in gone then map[] else Of(m, b)
  }

  lemma TailStep(s: seq<Addr>, k: nat)
    requires k < |s|
    ensures Members(s[k..]) == Members(s[k + 1..]) + {s[k]}
  {
    assert s[k..] == [s[k]] + s[k + 1..];
    forall x | x in Members(s[k + 1..]) ensures x in Members(s[k..]) {
      var i :| 0 <= i < |s[k + 1..]| && s[k + 1..][i] == x;
      assert s[k..][i + 1] == x;
    }
    assert s[k..][0] == s[k];
  }

  lemma TotalSwap(m: map<Addr, Items>, n: map<Addr, Items>, a: Addr)
    requires SameBut(m, n, a)
    ensures Total(n) + |Of(m, a)| == Total(m) + |Of(n, a)|
  {
    var rest := set x | x in Slots(m) && x.0 != a;
    forall b, k | b != a ensures (b, k) in Slots(m) <==> (b, k) in Slots(n) {
      assert Of(n, b) == Of(m, b);
    }
    assert rest == set x | x in Slots(n) && x.0 != a;
    SlotsSplit(m, a, rest);
    SlotsSplit(n, a, rest);
  }

  lemma SlotsSplit(m: map<Addr, Items>, a: Addr, rest: set<(Addr, nat)>)
    requires rest == set x | x in Slots(m) && x.0 != a
    ensures Total(m) == |rest| + |Of(m, a)|
  {
    PairsSize(a, Of(m, a).Keys);
    assert Slots(m) == rest + Pairs(a, Of(m, a).Keys);
    assert rest !! Pairs(a, Of(m, a).Keys);
  }

  lemma PoppedMore(m: map<Addr, Items>, was: map<Addr, Items>, now: map<Addr, Items>, gone: set<Addr>, a: Addr)
    requires Popped(m, was, gone) && Popped(was, now, {a})
    ensures Popped(m, now, gone + {a}) && Total(now) + |Of(was, a)| == Total(was)
  {
    TotalSwap(was, now, a);
    forall b ensures Of(now, b) == if b in gone + {a} then map[] else Of(m, b) {
      assert Of(was, b) == if b in gone then map[] else Of(m, b);
    }
  }

  /** When an account was last active; one without a record counts as the earliest. */
  function Beat(beats: map<Addr, nat>, a: Addr): int {
    if a in beats then beats[a] else -1
  }

  function BeatKey(beats: map<Addr, nat>): Addr -> int {
    (a: Addr) => Beat(beats, a)
  }

  /** A list is untouched, or of a remote account and gone, or the one list cut from the high nonces. */
  ghost predicate TrimAt(m: map<Addr, Items>, n: map<Addr, Items>, locals: set<Addr>, last: Addr, a: Addr) {
    || Of(n, a) == Of(m, a)
    || (a !in locals && (Of(n, a) == map[] || (a == last && IsLowest(Of(m, a), Of(n, a), |Of(n, a)|))))
  }

  /** No account loses transactions while a more recently active remote one keeps some. */
  ghost predicate LatestFirst(m: map<Addr, Items>, n: map<Addr, Items>, locals: set<Addr>, beats: map<Addr, nat>,
                              a: Addr, b: Addr) {
    Of(n, a) != Of(m, a) && b !in locals && Of(n, b) != map[] ==> Beat(beats, b) <= Beat(beats, a)
  }

  /** Cut to exactly the limit, unless the local accounts alone exceed it. */
  ghost predicate QueueTrimmed(m: map<Addr, Items>, n: map<Addr, Items>, locals: set<Addr>, beats: map<Addr, nat>,
                               limit: nat, last: Addr) {
    && (forall a {:trigger TrimAt(m, n, locals, last, a)} :: TrimAt(m, n, locals, last, a))
    && (forall a, b {:trigger LatestFirst(m, n, locals, beats, a, b)} :: LatestFirst(m, n, locals, beats, a, b))
    && (if Total(m) <= limit then n == m
        else Total(n) == limit || (Total(n) > limit && forall a :: a !in locals ==> Of(n, a) == map[]))
  }

  ghost predicate Remotes(m: map<Addr, Items>, locals: set<Addr>, s: seq<Addr>) {
    multiset(s) == multiset(set a | a in m && a !in locals)
  }

  lemma RemoteAt(m: map<Addr, Items>, locals: set<Addr>, s: seq<Addr>, k: nat)
    requires Remotes(m, locals, s) && k < |s|
    ensures s[k] in m && s[k] !in locals && s[k] !in Members(s[k + 1..])
  {
    assert s[k] in multiset(s);
    if s[k] in Members(s[k + 1..]) {
      var i :| 0 <= i < |s[k + 1..]| && s[k + 1..][i] == s[k];
      TwiceIn(s, k, k + 1 + i);
    }
  }

  /** A remote account that is not popped is still among the first k. */
  lemma RemoteIndex(m: map<Addr, Items>, locals: set<Addr>, s: seq<Addr>, k: nat, b: Addr) returns (i: nat)
    requires Remotes(m, locals, s) && k <= |s| && b in m && b !in locals && b !in Members(s[k..])
    ensures i < k && s[i] == b
  {
    assert b in multiset(s);
    i :| 0 <= i < |s| && s[i] == b;
    forall j | k <= j < |s| ensures s[j] in Members(s[k..]) {
      assert s[k..][j - k] == s[j];
    }
  }

  lemma WholeTrimmed(m: map<Addr, Items>, n: map<Addr, Items>, locals: set<Addr>, beats: map<Addr, nat>, limit: nat,
                     s: seq<Addr>, k: nat, last: Addr)
    requires Remotes(m, locals, s) && SortedBy(s, BeatKey(beats)) && k <= |s| && Popped(m, n, Members(s[k..]))
    requires Total(m) > limit && Total(n) >= limit && (Total(n) == limit || k == 0)
    ensures QueueTrimmed(m, n, locals, beats, limit, last)
  {
    forall a ensures TrimAt(m, n, locals, last, a) {
      if a in Members(s[k..]) { var j := PoppedIndex(m, locals, s, k, a); }
    }
    forall a, b ensures LatestFirst(m, n, locals, beats, a, b) {
      if Of(n, a) != Of(m, a) && b !in locals && Of(n, b) != map[] {
        var j := PoppedIndex(m, locals, s, k, a);
        var i := RemoteIndex(m, locals, s, k, b);
        assert BeatKey(beats)(s[i]) <= BeatKey(beats)(s[j]);
      }
    }
    forall a | k == 0 && a !in locals ensures Of(n, a) == map[] {
      if a in m { assert a in multiset(s); assert s[0..] == s; }
    }
  }

  lemma PoppedIndex(m: map<Addr, Items>, locals: set<Addr>, s: seq<Addr>, k: nat, a: Addr) returns (j: nat)
    requires Remotes(m, locals, s) && k <= |s| && a in Members(s[k..])
    ensures k <= j < |s| && s[j] == a && a !in locals
  {
    var i :| 0 <= i < |s[k..]| && s[k..][i] == a;
    j := k + i;
    assert s[j] in multiset(s);
  }

  lemma TailTrimmed(m: map<Addr, Items>, was: map<Addr, Items>, n: map<Addr, Items>, locals: set<Addr>,
                    beats: map<Addr, nat>, limit: nat,
                    s: seq<Addr>, k: nat)
    requires Remotes(m, locals, s) && SortedBy(s, BeatKey(beats)) && k < |s| && Popped(m, was, Members(s[k + 1..]))
    requires SameBut(was, n, s[k]) && IsLowest(Of(was, s[k]), Of(n, s[k]), |Of(n, s[k])|)
    requires Total(m) > limit && Total(was) + |Of(n, s[k])| == limit + |Of(was, s[k])|
    ensures QueueTrimmed(m, n, locals, beats, limit, s[k])
  {
    RemoteAt(m, locals, s, k);
    TotalSwap(was, n, s[k]);
    forall a ensures TrimAt(m, n, locals, s[k], a) {
      assert Of(was, a) == if a in Members(s[k + 1..]) then map[] else Of(m, a);
      if a in Members(s[k + 1..]) { var j := PoppedIndex(m, locals, s, k + 1, a); }
    }
    TailStep(s, k);
    forall a, b ensures LatestFirst(m, n, locals, beats, a, b) {
      if Of(n, a) != Of(m, a) && b !in locals && Of(n, b) != map[] {
        assert a in Members(s[k..]) by { assert Of(was, a) == if a in Members(s[k + 1..]) then map[] else Of(m, a); }
        var j := PoppedIndex(m, locals, s, k, a);
        assert Of(was, b) == if b in Members(s[k + 1..]) then map[] else Of(m, b);
        if b != s[k] {
          assert b !in Members(s[k..]);
          var i := RemoteIndex(m, locals, s, k, b);
          assert BeatKey(beats)(s[i]) <= BeatKey(beats)(s[j]);
        } else if j != k {
          assert BeatKey(beats)(s[k]) <= BeatKey(beats)(s[j]);
        }
      }
    }
  }
}
