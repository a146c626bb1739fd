/** What all modules share. */
module Options {
  datatype Option<+T> = None | Some(value: T)

  ghost function Members<T>(s: seq<T>): set<T> {
    set x | x in s
  }

  lemma MembersGrow<T>(s: seq<T>, i: nat)
    requires i < |s|
    ensures Members(s[..i + 1]) == Members(s[..i]) + {s[i]}
  {
    assert s[..i + 1] == s[..i] + [s[i]];
  }

  lemma SubsetSize<T>(a: set<T>, b: set<T>)
    requires a <= b
    ensures |a| <= |b| && (|a| == |b| ==> a == b)
  {
    assert b == a + (b - a);
  }
}
