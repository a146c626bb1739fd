/**
 Negotiation of sub-protocols: two peers that know each other's capabilities
 give every common protocol a range of message codes, and have to come to the
 same ranges without talking about them.
 */
module Protocols {
  import opened Options

  type Name = string

  datatype Cap = Cap(name: Name, version: nat)

  datatype Protocol = Protocol(name: Name, version: nat, length: nat)

  /** A running protocol: the version agreed on and its range of message codes. */
  datatype Range = Range(version: nat, length: nat, offset: nat)

  const BASE_PROTOCOL_LENGTH := 16

  // ---------------------------------------------------------------------------
  // The order of capabilities
  // ---------------------------------------------------------------------------

  predicate Lex(a: Name, b: Name) {
    b != [] && (a == [] || a[0] < b[0] || (a[0] == b[0] && Lex(a[1..], b[1..])))
  }

  lemma {:induction false} LexTrans(a: Name, b: Name, c: Name)
    requires Lex(a, b) && Lex(b, c)
    ensures Lex(a, c)
  {
    if a != [] && a[0] == b[0] && b[0] == c[0] {
      LexTrans(a[1..], b[1..], c[1..]);
    }
  }

  lemma {:induction false} LexTotal(a: Name, b: Name)
    ensures Lex(a, b) || Lex(b, a) || a == b
    ensures !(Lex(a, b) && Lex(b, a)) && (a == b ==> !Lex(a, b))
  {
    if a != [] && b != [] && a[0] == b[0] {
      LexTotal(a[1..], b[1..]);
      assert a == [a[0]] + a[1..] && b == [b[0]] + b[1..];
    }
  }

  predicate Before(a: Cap, b: Cap) {
    Lex(a.name, b.name) || (a.name == b.name && a.version < b.version)
  }

  predicate NotAfter(a: Cap, b: Cap) {
    Lex(a.name, b.name) || (a.name == b.name && a.version <= b.version)
  }

  lemma NotAfterOrder(a: Cap, b: Cap, c: Cap)
    ensures NotAfter(a, b) <==> !Before(b, a)
    ensures NotAfter(a, b) && NotAfter(b, c) ==> NotAfter(a, c)
  {
    LexTotal(a.name, b.name);
    if NotAfter(a, b) && NotAfter(b, c) && Lex(a.name, b.name) && Lex(b.name, c.name) {
      LexTrans(a.name, b.name, c.name);
    }
  }

  ghost predicate SortedCaps(s: seq<Cap>) {
    forall i, j :: 0 <= i < j < |s| ==> NotAfter(s[i], s[j])
  }

  /** Sorts capabilities by name and version. */
  method SortCaps(caps: seq<Cap>) returns (s: seq<Cap>)
    ensures SortedCaps(s) && forall c :: c in s <==> c in caps
  {
    s := [];
    var i := 0;
    while i < |caps|
      invariant 0 <= i <= |caps| && SortedCaps(s) && forall c :: c in s <==> c in caps[..i]
    {
      s := Insert(s, caps[i]);
      assert caps[..i + 1] == caps[..i] + [caps[i]];
      i := i + 1;
    }
    assert caps[..|caps|] == caps;
  }

  method Insert(s: seq<Cap>, c: Cap) returns (r: seq<Cap>)
    requires SortedCaps(s)
    ensures SortedCaps(r) && forall x :: x in r <==> x in s || x == c
  {
    var k := |s|;
    while k > 0 && Before(c, s[k - 1])
      invariant 0 <= k <= |s| && forall j :: k <= j < |s| ==> NotAfter(c, s[j])
    {
      LexTotal(c.name, s[k - 1].name);
      k := k - 1;
    }
    r := s[..k] + [c] + s[k..];
    InsertSorted(s, c, k, r);
  }

  lemma InsertSorted(s: seq<Cap>, c: Cap, k: nat, r: seq<Cap>)
    requires SortedCaps(s) && k <= |s| && r == s[..k] + [c] + s[k..]
    requires (forall j :: k <= j < |s| ==> NotAfter(c, s[j])) && (k > 0 ==> !Before(c, s[k - 1]))
    ensures SortedCaps(r) && forall x :: x in r <==> x in s || x == c
  {
    forall j | 0 <= j < k ensures NotAfter(s[j], c) {
      NotAfterOrder(s[k - 1], c, c);
      if j < k - 1 { NotAfterOrder(s[j], s[k - 1], c); }
    }
    forall i, j | 0 <= i < j < |r| ensures NotAfter(r[i], r[j]) {
      assert r[i] == if i < k then s[i] else if i == k then c else s[i - 1];
      assert r[j] == if j < k then s[j] else if j == k then c else s[j - 1];
    }
    InsertMembers(s, c, k, r);
  }

  lemma InsertMembers(s: seq<Cap>, c: Cap, k: nat, r: seq<Cap>)
    requires k <= |s| && r == s[..k] + [c] + s[k..]
    ensures forall x :: x in r <==> x in s || x == c
  {
    assert s == s[..k] + s[k..];
  }

  // ---------------------------------------------------------------------------
  // Matching
  // ---------------------------------------------------------------------------

  /** The protocols of this side offer the capability. */
  ghost predicate Offers(ps: seq<Protocol>, c: Cap) {
    exists i :: 0 <= i < |ps| && ps[i].name == c.name && ps[i].version == c.version
  }

  /** The length this side gives the capability: that of the first protocol offering it. */
  function LengthOf(ps: seq<Protocol>, c: Cap): Option<nat> {
    if ps == [] then None
    else if ps[0].name == c.name && ps[0].version == c.version then Some(ps[0].length)
    else LengthOf(ps[1..], c)
  }

  lemma {:induction false} OffersLength(ps: seq<Protocol>, c: Cap)
    ensures Offers(ps, c) <==> LengthOf(ps, c).Some?
  {
    if ps != [] {
      OffersLength(ps[1..], c);
      if Offers(ps[1..], c) {
        var i :| 0 <= i < |ps[1..]| && ps[1..][i].name == c.name && ps[1..][i].version == c.version;
        assert ps[i + 1] == ps[1..][i];
      }
      if Offers(ps, c) && !(ps[0].name == c.name && ps[0].version == c.version) {
        var i :| 0 <= i < |ps| && ps[i].name == c.name && ps[i].version == c.version;
        assert ps[1..][i - 1] == ps[i];
      }
    }
  }

  method FindLength(ps: seq<Protocol>, c: Cap) returns (r: Option<nat>)
    ensures r == LengthOf(ps, c)
  {
    var i := 0;
    while i < |ps|
      invariant 0 <= i <= |ps| && LengthOf(ps, c) == LengthOf(ps[i..], c)
    {
      if ps[i].name == c.name && ps[i].version == c.version {
        return Some(ps[i].length);
      }
      assert ps[i..][1..] == ps[i + 1..];
      i := i + 1;
    }
    return None;
  }

  /** `c` is the highest version of its name that both sides have. */
  ghost predicate Highest(ps: seq<Protocol>, caps: seq<Cap>, c: Cap) {
    && c in caps && LengthOf(ps, c).Some?
    && forall v: nat :: Cap(c.name, v) in caps && LengthOf(ps, Cap(c.name, v)).Some? ==> v <= c.version
  }

  ghost predicate Matched(ps: seq<Protocol>, caps: seq<Cap>, name: Name) {
    exists v: nat :: Cap(name, v) in caps && LengthOf(ps, Cap(name, v)).Some?
  }

  /** The entry of a name: the highest common version, with its length. */
  ghost predicate EntryOk(ps: seq<Protocol>, caps: seq<Cap>, name: Name, r: Range) {
    Highest(ps, caps, Cap(name, r.version)) && LengthOf(ps, Cap(name, r.version)) == Some(r.length)
  }

  /** Counts the pairs of a capability and an own protocol that go together; none do exactly if no name matches. */
  method CountMatching(ps: seq<Protocol>, caps: seq<Cap>) returns (n: nat)
    ensures n == 0 <==> forall name :: !Matched(ps, caps, name)
  {
    n := 0;
    var i := 0;
    while i < |caps|
      invariant 0 <= i <= |caps| && (n == 0 <==> forall k :: 0 <= k < i ==> !Offers(ps, caps[k]))
    {
      var own := CountOffers(ps, caps[i]);
      n, i := n + own, i + 1;
    }
    if n == 0 {
      forall name ensures !Matched(ps, caps, name) {
        forall v: nat | Cap(name, v) in caps ensures LengthOf(ps, Cap(name, v)).None? {
          OffersLength(ps, Cap(name, v));
        }
      }
    } else {
      ghost var k :| 0 <= k < |caps| && Offers(ps, caps[k]);
      OffersLength(ps, caps[k]);
      assert caps[k] == Cap(caps[k].name, caps[k].version);
      assert Matched(ps, caps, caps[k].name);
    }
  }

  method CountOffers(ps: seq<Protocol>, c: Cap) returns (n: nat)
    ensures n == 0 <==> !Offers(ps, c)
  {
    n := 0;
    var j := 0;
    while j < |ps|
      invariant 0 <= j <= |ps|
      invariant n == 0 <==> forall k :: 0 <= k < j ==> !(ps[k].name == c.name && ps[k].version == c.version)
    {
      if ps[j].name == c.name && ps[j].version == c.version {
        n := n + 1;
      }
      j := j + 1;
    }
  }

  ghost predicate Increasing(order: seq<Name>) {
    forall i, j :: 0 <= i < j < |order| ==> Lex(order[i], order[j])
  }

  /** The first code behind the first `i` ranges. */
  ghost function EndAt(table: map<Name, Range>, order: seq<Name>, i: nat): nat {
    if 0 < i <= |order| && order[i - 1] in table then table[order[i - 1]].offset + table[order[i - 1]].length
    else BASE_PROTOCOL_LENGTH
  }

  ghost predicate FollowsAt(table: map<Name, Range>, order: seq<Name>, i: nat) {
    i < |order| ==> order[i] in table && table[order[i]].offset == EndAt(table, order, i)
  }

  /** The ranges follow one another by name, without gaps, from the first free code to `end`. */
  ghost predicate Tiled(table: map<Name, Range>, order: seq<Name>, end: nat) {
    && (forall i: nat {:trigger FollowsAt(table, order, i)} :: FollowsAt(table, order, i))
    && (forall n :: n in table ==> n in order)
    && end == EndAt(table, order, |order|)
  }

  /** The outcome of matching the own protocols against the other side's capabilities. */
  ghost predicate IsTable(ps: seq<Protocol>, caps: seq<Cap>, table: map<Name, Range>, order: seq<Name>, end: nat) {
    && Increasing(order) && Tiled(table, order, end)
    && (forall n :: n in table ==> EntryOk(ps, caps, n, table[n]))
    && (forall n {:trigger n in table} :: Matched(ps, caps, n) ==> n in table)
  }

  /** A later capability does not sort before the name of any entry so far. */
  lemma NamesBefore(ps: seq<Protocol>, caps: seq<Cap>, i: nat, table: map<Name, Range>, n: Name)
    requires SortedCaps(caps) && i < |caps| && n in table && EntryOk(ps, caps[..i], n, table[n])
    ensures Lex(n, caps[i].name) || n == caps[i].name
    ensures n == caps[i].name ==> table[n].version <= caps[i].version
  {
    var c := Cap(n, table[n].version);
    var j :| 0 <= j < i && caps[..i][j] == c;
    assert NotAfter(caps[j], caps[i]);
    LexTotal(n, n);
  }

  /** The entry of a name is not affected by a capability of another name, nor by one this side does not offer. */
  lemma EntryKept(ps: seq<Protocol>, caps: seq<Cap>, i: nat, n: Name, r: Range)
    requires i < |caps| && EntryOk(ps, caps[..i], n, r)
    requires n != caps[i].name || LengthOf(ps, caps[i]).None?
    ensures EntryOk(ps, caps[..i + 1], n, r)
  {
    assert caps[..i + 1] == caps[..i] + [caps[i]];
  }

  lemma MatchedStep(ps: seq<Protocol>, caps: seq<Cap>, i: nat, n: Name)
    requires i < |caps| && Matched(ps, caps[..i + 1], n)
    ensures Matched(ps, caps[..i], n) || (n == caps[i].name && LengthOf(ps, caps[i]).Some?)
  {
    assert caps[..i + 1] == caps[..i] + [caps[i]];
  }

  /** The newest capability of a name is the highest so far. */
  lemma EntryNew(ps: seq<Protocol>, caps: seq<Cap>, i: nat, offset: nat)
    requires SortedCaps(caps) && i < |caps| && LengthOf(ps, caps[i]).Some?
    ensures EntryOk(ps, caps[..i + 1], caps[i].name, Range(caps[i].version, LengthOf(ps, caps[i]).value, offset))
  {
    var name := caps[i].name;
    assert caps[..i + 1] == caps[..i] + [caps[i]];
    assert caps[i] == Cap(name, caps[i].version);
    forall v: nat | Cap(name, v) in caps[..i + 1] ensures v <= caps[i].version {
      var j :| 0 <= j < i + 1 && caps[..i + 1][j] == Cap(name, v);
      LexTotal(name, name);
      assert j < i ==> NotAfter(caps[j], caps[i]);
    }
  }

  /** An entry with the greatest name is the last one. */
  lemma GreatestIsLast(order: seq<Name>, name: Name, k: nat)
    requires Increasing(order) && k < |order| && order[k] == name
    requires forall i :: 0 <= i < |order| ==> Lex(order[i], name) || order[i] == name
    ensures k == |order| - 1
  {
    var last := |order| - 1;
    assert k < last ==> Lex(order[k], order[last]);
    LexTotal(name, order[last]);
  }

  lemma Skipped(ps: seq<Protocol>, caps: seq<Cap>, i: nat, table: map<Name, Range>, order: seq<Name>, offset: nat)
    requires i < |caps| && IsTable(ps, caps[..i], table, order, offset) && LengthOf(ps, caps[i]).None?
    ensures IsTable(ps, caps[..i + 1], table, order, offset)
  {
    forall n | n in table ensures EntryOk(ps, caps[..i + 1], n, table[n]) {
      EntryKept(ps, caps, i, n, table[n]);
    }
    forall n | Matched(ps, caps[..i + 1], n) ensures n in table {
      MatchedStep(ps, caps, i, n);
    }
  }

  /** A new name takes the next codes. */
  lemma Appended(ps: seq<Protocol>, caps: seq<Cap>, i: nat, table: map<Name, Range>, order: seq<Name>, offset: nat)
    requires SortedCaps(caps) && i < |caps| && IsTable(ps, caps[..i], table, order, offset)
    requires LengthOf(ps, caps[i]).Some? && caps[i].name !in table
    ensures var len := LengthOf(ps, caps[i]).value;
            IsTable(ps, caps[..i + 1], table[caps[i].name := Range(caps[i].version, len, offset)],
                    order + [caps[i].name], offset + len)
  {
    var name, len := caps[i].name, LengthOf(ps, caps[i]).value;
    var next, names := table[name := Range(caps[i].version, len, offset)], order + [name];
    forall j | 0 <= j < |order| ensures Lex(order[j], name) {
      assert FollowsAt(table, order, j);
      NamesBefore(ps, caps, i, table, order[j]);
    }
    EntriesAfter(ps, caps, i, table, offset);
    TiledAppend(table, order, offset, name, Range(caps[i].version, len, offset));
  }

  lemma TiledAppend(table: map<Name, Range>, order: seq<Name>, end: nat, name: Name, r: Range)
    requires Tiled(table, order, end) && name !in table && r.offset == end
    ensures Tiled(table[name := r], order + [name], end + r.length)
  {
    var next, names := table[name := r], order + [name];
    forall i: nat ensures FollowsAt(next, names, i) {
      assert FollowsAt(table, order, i);
      assert i > 0 ==> FollowsAt(table, order, i - 1);
    }
  }

  lemma TiledReplace(table: map<Name, Range>, order: seq<Name>, end: nat, r: Range)
    requires Tiled(table, order, end) && order != [] && r.offset == EndAt(table, order, |order| - 1)
    requires forall j :: 0 <= j < |order| - 1 ==> order[j] != order[|order| - 1]
    ensures Tiled(table[order[|order| - 1] := r], order, r.offset + r.length)
  {
    var next := table[order[|order| - 1] := r];
    assert FollowsAt(table, order, |order| - 1);
    forall i: nat ensures FollowsAt(next, order, i) {
      assert FollowsAt(table, order, i);
      assert i > 0 ==> FollowsAt(table, order, i - 1);
    }
  }

  lemma EntriesAfter(ps: seq<Protocol>, caps: seq<Cap>, i: nat, table: map<Name, Range>, offset: nat)
    requires SortedCaps(caps) && i < |caps| && LengthOf(ps, caps[i]).Some?
    requires forall n :: n in table ==> EntryOk(ps, caps[..i], n, table[n])
    requires forall n {:trigger n in table} :: Matched(ps, caps[..i], n) ==> n in table
    ensures var next := table[caps[i].name := Range(caps[i].version, LengthOf(ps, caps[i]).value, offset)];
            && (forall n :: n in next ==> EntryOk(ps, caps[..i + 1], n, next[n]))
            && (forall n {:trigger n in next} :: Matched(ps, caps[..i + 1], n) ==> n in next)
  {
    var next := table[caps[i].name := Range(caps[i].version, LengthOf(ps, caps[i]).value, offset)];
    EntryNew(ps, caps, i, offset);
    forall n | n in next ensures EntryOk(ps, caps[..i + 1], n, next[n]) {
      if n != caps[i].name { EntryKept(ps, caps, i, n, table[n]); }
    }
    forall n | Matched(ps, caps[..i + 1], n) ensures n in next {
      MatchedStep(ps, caps, i, n);
    }
  }

  /** Capabilities come in order, so a name that comes again is the last one matched. */
  lemma NameIsLast(ps: seq<Protocol>, caps: seq<Cap>, i: nat, table: map<Name, Range>, order: seq<Name>, end: nat)
    requires SortedCaps(caps) && i < |caps| && IsTable(ps, caps[..i], table, order, end) && caps[i].name in table
    ensures |order| > 0 && order[|order| - 1] == caps[i].name && caps[i].name !in order[..|order| - 1]
    ensures FollowsAt(table, order, |order| - 1)
  {
    var name := caps[i].name;
    forall j | 0 <= j < |order| ensures Lex(order[j], name) || order[j] == name {
      assert FollowsAt(table, order, j);
      NamesBefore(ps, caps, i, table, order[j]);
    }
    var k :| 0 <= k < |order| && order[k] == name;
    GreatestIsLast(order, name, k);
    forall j | 0 <= j < |order| - 1 ensures order[j] != name {
      LexTotal(order[j], name);
      assert Lex(order[j], order[|order| - 1]);
    }
  }

  /** A newer version of the last name takes over its codes. */
  lemma TakenOver(ps: seq<Protocol>, caps: seq<Cap>, i: nat, table: map<Name, Range>, order: seq<Name>, end: nat)
    requires SortedCaps(caps) && i < |caps| && IsTable(ps, caps[..i], table, order, end)
    requires LengthOf(ps, caps[i]).Some? && caps[i].name in table
    ensures var name, len := caps[i].name, LengthOf(ps, caps[i]).value;
            var offset := end - table[name].length;
            && table[name].length <= end
            && IsTable(ps, caps[..i + 1], table[name := Range(caps[i].version, len, offset)], order, offset + len)
  {
    var name, len := caps[i].name, LengthOf(ps, caps[i]).value;
    NameIsLast(ps, caps, i, table, order, end);
    var offset := end - table[name].length;
    EntriesAfter(ps, caps, i, table, offset);
    TiledReplace(table, order, end, Range(caps[i].version, len, offset));
  }

  /** Gives every name both sides have a range of codes, highest common version first served. */
  method MatchProtocols(ps: seq<Protocol>, caps: seq<Cap>)
    returns (table: map<Name, Range>, ghost order: seq<Name>, ghost end: nat)
    ensures forall n :: n in table <==> Matched(ps, caps, n)
    ensures forall n :: n in table ==> EntryOk(ps, caps, n, table[n])
    ensures IsTable(ps, caps, table, order, end)
  {
    var sorted := SortCaps(caps);
    var offset: nat := BASE_PROTOCOL_LENGTH;
    table, order := map[], [];
    var i := 0;
    while i < |sorted|
      invariant 0 <= i <= |sorted| && IsTable(ps, sorted[..i], table, order, offset)
    {
      table, order, offset := MatchOne(ps, sorted, i, table, order, offset);
      i := i + 1;
    }
    end := offset;
    assert sorted[..|sorted|] == sorted;
    SameCaps(ps, sorted, caps, table, order, end);
  }

  /** Matches the next capability: it takes the next codes, takes over those of an older version, or is skipped. */
  method MatchOne(ps: seq<Protocol>, sorted: seq<Cap>, i: nat, table: map<Name, Range>, ghost order: seq<Name>,
                  offset: nat)
    returns (next: map<Name, Range>, ghost names: seq<Name>, end: nat)
    requires SortedCaps(sorted) && i < |sorted| && IsTable(ps, sorted[..i], table, order, offset)
    ensures forall n :: n in next <==> Matched(ps, sorted[..i + 1], n)
    ensures IsTable(ps, sorted[..i + 1], next, names, end)
  {
    var cap := sorted[i];
    var length := FindLength(ps, cap);
    if length.None? {
      Skipped(ps, sorted, i, table, order, offset);
      return table, order, offset;
    }
    if cap.name in table {
      TakenOver(ps, sorted, i, table, order, offset);
      names, end := order, offset - table[cap.name].length;
    } else {
      Appended(ps, sorted, i, table, order, offset);
      names, end := order + [cap.name], offset;
    }
    next := table[cap.name := Range(cap.version, length.value, end)];
    end := end + length.value;
  }

  lemma SameCaps(ps: seq<Protocol>, s: seq<Cap>, caps: seq<Cap>, table: map<Name, Range>, order: seq<Name>, end: nat)
    requires IsTable(ps, s, table, order, end) && forall c :: c in s <==> c in caps
    ensures IsTable(ps, caps, table, order, end)
  {
    forall n | Matched(ps, caps, n) ensures n in table {
      assert Matched(ps, s, n);
    }
  }

  // ---------------------------------------------------------------------------
  // The two sides agree
  // ---------------------------------------------------------------------------

  lemma {:induction false} IncreasingUnique(a: seq<Name>, b: seq<Name>)
    requires Increasing(a) && Increasing(b) && forall n :: n in a <==> n in b
    ensures a == b
    decreases |a|
  {
    assert a != [] ==> a[0] in b;
    assert b != [] ==> b[0] in a;
    if a != [] {
      var i :| 0 <= i < |b| && b[i] == a[0];
      var j :| 0 <= j < |a| && a[j] == b[0];
      LexTotal(a[0], b[0]);
      assert a[0] == b[0];
      TailMembers(a, b);
      IncreasingUnique(a[1..], b[1..]);
      assert a == [a[0]] + a[1..] && b == [b[0]] + b[1..];
    }
  }

  lemma TailMembers(a: seq<Name>, b: seq<Name>)
    requires a != [] && b != [] && a[0] == b[0] && Increasing(a) && Increasing(b) && forall n :: n in a <==> n in b
    ensures forall n :: n in a[1..] <==> n in b[1..]
  {
    forall n ensures n in a[1..] <==> n in a && n != a[0] {
      HeadOnce(a, n);
    }
    forall n ensures n in b[1..] <==> n in b && n != b[0] {
      HeadOnce(b, n);
    }
  }

  lemma HeadOnce(a: seq<Name>, n: Name)
    requires a != [] && Increasing(a)
    ensures n in a[1..] <==> n in a && n != a[0]
  {
    assert a == [a[0]] + a[1..];
    if n in a[1..] {
      var i :| 0 <= i < |a[1..]| && a[1..][i] == n;
      assert Lex(a[0], a[i + 1]);
      LexTotal(a[0], n);
    }
  }

  lemma {:induction false} SameOffsets(s: map<Name, Range>, t: map<Name, Range>, order: seq<Name>, e: nat, f: nat,
                                       i: nat)
    requires Tiled(s, order, e) && Tiled(t, order, f) && i < |order|
    requires forall n :: n in order ==> n in s && n in t && s[n].length == t[n].length
    ensures s[order[i]].offset == t[order[i]].offset
  {
    assert FollowsAt(s, order, i) && FollowsAt(t, order, i);
    if i > 0 {
      SameOffsets(s, t, order, e, f, i - 1);
      assert order[i - 1] in order;
    }
  }

  lemma OrderListsTable(t: map<Name, Range>, order: seq<Name>, end: nat, n: Name)
    requires Tiled(t, order, end)
    ensures n in order <==> n in t
  {
    if n in order {
      var i :| 0 <= i < |order| && order[i] == n;
      assert FollowsAt(t, order, i);
    }
  }

  /** This side announces exactly the capabilities of its protocols. */
  ghost predicate Announces(ps: seq<Protocol>, caps: seq<Cap>) {
    forall c :: c in caps <==> Offers(ps, c)
  }

  ghost predicate SameLengths(ps: seq<Protocol>, qs: seq<Protocol>) {
    forall c {:trigger LengthOf(ps, c)} {:trigger LengthOf(qs, c)} ::
      LengthOf(ps, c).Some? && LengthOf(qs, c).Some? ==> LengthOf(ps, c) == LengthOf(qs, c)
  }

  lemma SameEntry(ps: seq<Protocol>, qs: seq<Protocol>, pcaps: seq<Cap>, qcaps: seq<Cap>, n: Name, r: Range, t: Range)
    requires Announces(ps, pcaps) && Announces(qs, qcaps) && SameLengths(ps, qs)
    requires EntryOk(ps, qcaps, n, r) && EntryOk(qs, pcaps, n, t)
    ensures r.version == t.version && r.length == t.length
  {
    OffersLength(ps, Cap(n, r.version));
    OffersLength(qs, Cap(n, r.version));
    OffersLength(ps, Cap(n, t.version));
    OffersLength(qs, Cap(n, t.version));
    assert Cap(n, r.version) in pcaps && Cap(n, t.version) in qcaps;
  }

  lemma MatchedBack(ps: seq<Protocol>, qs: seq<Protocol>, pcaps: seq<Cap>, qcaps: seq<Cap>, c: Cap)
    requires Announces(ps, pcaps) && Announces(qs, qcaps) && c in qcaps && LengthOf(ps, c).Some?
    ensures Matched(qs, pcaps, c.name)
  {
    OffersLength(ps, c);
    OffersLength(qs, c);
    assert c == Cap(c.name, c.version);
  }

  /**
   Two sides that match their protocols against each other's capabilities, and
   agree on the lengths of what they share, build the same table.
   */
  lemma TablesAgree(ps: seq<Protocol>, qs: seq<Protocol>, pcaps: seq<Cap>, qcaps: seq<Cap>,
                    s: map<Name, Range>, so: seq<Name>, se: nat, t: map<Name, Range>, to: seq<Name>, te: nat)
    requires Announces(ps, pcaps) && Announces(qs, qcaps) && SameLengths(ps, qs)
    requires IsTable(ps, qcaps, s, so, se) && IsTable(qs, pcaps, t, to, te)
    ensures s == t
  {
    forall n ensures n in s <==> n in t {
      if n in s { MatchedBack(ps, qs, pcaps, qcaps, Cap(n, s[n].version)); }
      if n in t { MatchedBack(qs, ps, qcaps, pcaps, Cap(n, t[n].version)); }
    }
    forall n | n in s ensures s[n].version == t[n].version && s[n].length == t[n].length {
      SameEntry(ps, qs, pcaps, qcaps, n, s[n], t[n]);
    }
    forall n ensures (n in so <==> n in s) && (n in to <==> n in t) {
      OrderListsTable(s, so, se, n);
      OrderListsTable(t, to, te, n);
    }
    IncreasingUnique(so, to);
    forall n | n in s ensures s[n] == t[n] {
      var i :| 0 <= i < |so| && so[i] == n;
      SameOffsets(s, t, so, se, te, i);
    }
  }

  // ---------------------------------------------------------------------------
  // Message codes
  // ---------------------------------------------------------------------------

  predicate Handles(r: Range, code: nat) {
    r.offset <= code < r.offset + r.length
  }

  /** The code on the wire, if the protocol has such a message. */
  function WriteCode(r: Range, code: nat): Option<nat> {
    if code >= r.length then None else Some(code + r.offset)
  }

  function ReadCode(r: Range, code: nat): nat
    requires Handles(r, code)
  {
    code - r.offset
  }

  /** Finds the protocol a code on the wire belongs to. */
  method GetProto(table: map<Name, Range>, code: nat) returns (name: Option<Name>)
    ensures name.Some? ==> name.value in table && Handles(table[name.value], code)
    ensures name.None? ==> forall n :: n in table ==> !Handles(table[n], code)
  {
    var todo := table.Keys;
    while todo != {}
      invariant todo <= table.Keys && forall n :: n in table && n !in todo ==> !Handles(table[n], code)
      decreases |todo|
    {
      var n :| n in todo;
      if Handles(table[n], code) {
        return Some(n);
      }
      todo := todo - {n};
    }
    return None;
  }

  lemma {:induction false} RangesApart(table: map<Name, Range>, order: seq<Name>, end: nat, i: nat, j: nat)
    requires Tiled(table, order, end) && i < j < |order|
    ensures order[i] in table && order[j] in table
    ensures table[order[i]].offset + table[order[i]].length <= table[order[j]].offset
    decreases j
  {
    assert FollowsAt(table, order, i) && FollowsAt(table, order, j);
    if i + 1 < j {
      RangesApart(table, order, end, i, j - 1);
    }
  }

  /** A code written by one protocol is read back by the same protocol, and by no other, as the same code. */
  lemma CodeSurvives(table: map<Name, Range>, order: seq<Name>, end: nat, name: Name, code: nat, other: Name)
    requires Tiled(table, order, end) && name in table && other in table && code < table[name].length
    ensures WriteCode(table[name], code).Some?
    ensures var wire := WriteCode(table[name], code).value;
            && BASE_PROTOCOL_LENGTH <= wire < end
            && Handles(table[name], wire) && ReadCode(table[name], wire) == code
            && (Handles(table[other], wire) ==> other == name)
  {
    var i :| 0 <= i < |order| && order[i] == name;
    var j :| 0 <= j < |order| && order[j] == other;
    assert FollowsAt(table, order, i) && FollowsAt(table, order, 0) && FollowsAt(table, order, |order| - 1);
    if i < j { RangesApart(table, order, end, i, j); }
    if j < i { RangesApart(table, order, end, j, i); }
    if i > 0 { RangesApart(table, order, end, 0, i); }
    if i < |order| - 1 { RangesApart(table, order, end, i, |order| - 1); }
  }
}
