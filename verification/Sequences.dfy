/** Permutations of sequences. */
module Sequences {

  predicate Distinct<T(==)>(s: seq<T>) {
    forall i, j :: 0 <= i < j < |s| ==> s[i] != s[j]
  }

  lemma OccursTwice<T>(s: seq<T>, i: nat, j: nat)
    requires i < j < |s| && s[i] == s[j]
    ensures multiset(s)[s[i]] >= 2
  {
    assert s == s[..j] + [s[j]] + s[j + 1..];
    assert s[i] in s[..j];
  }

  lemma OccursOnce<T>(s: seq<T>, i: nat)
    requires i < |s| && Distinct(s)
    ensures multiset(s)[s[i]] == 1
  {
    assert s == s[..i] + [s[i]] + s[i + 1..];
    assert s[i] !in s[..i] && s[i] !in s[i + 1..];
  }

  lemma SameElements<T>(a: seq<T>, b: seq<T>, i: nat) returns (k: nat)
    requires multiset(a) == multiset(b) && i < |a|
    ensures k < |b| && b[k] == a[i]
  {
    assert a[i] in multiset(b);
    k :| 0 <= k < |b| && b[k] == a[i];
  }

  lemma PermutationStaysDistinct<T>(a: seq<T>, b: seq<T>)
    requires multiset(a) == multiset(b) && Distinct(a)
    ensures Distinct(b) && |b| == |a|
  {
    assert |b| == |multiset(b)| == |multiset(a)| == |a|;
    forall i, j | 0 <= i < j < |b| ensures b[i] != b[j] {
      if b[i] == b[j] {
        OccursTwice(b, i, j);
        var k := SameElements(b, a, i);
        OccursOnce(a, k);
      }
    }
  }

  lemma WindowOfWindow<T>(s: seq<T>, off: nat, len: nat, lo: nat, n: nat)
    requires off + len <= |s| && lo + n <= len
    ensures s[off..off + len][lo..lo + n] == s[off + lo..off + lo + n]
  {
    var window := s[off..off + len];
    var a, b := window[lo..lo + n], s[off + lo..off + lo + n];
    forall i | 0 <= i < n ensures a[i] == b[i] {
      assert window[lo + i] == s[off + lo + i];
    }
  }

  lemma {:induction false} SubsetCardinality<T>(a: set<T>, b: set<T>)
    requires a <= b
    ensures |a| <= |b|
  {
    if a != {} {
      var x :| x in a;
      SubsetCardinality(a - {x}, b - {x});
    }
  }

  predicate Ascending(s: seq<int>) {
    forall i, j :: 0 <= i < j < |s| ==> s[i] <= s[j]
  }

  method Insert(s: seq<int>, x: int) returns (r: seq<int>)
    requires Ascending(s)
    ensures Ascending(r) && multiset(r) == multiset(s) + multiset{x}
  {
    var p := 0;
    while p < |s| && s[p] < x
      invariant p <= |s| && forall k :: 0 <= k < p ==> s[k] < x
    {
      p := p + 1;
    }
    assert s == s[..p] + s[p..];
    r := s[..p] + [x] + s[p..];
  }

  method SortInts(s: seq<int>) returns (r: seq<int>)
    ensures Ascending(r) && multiset(r) == multiset(s)
  {
    hide Ascending;
    r := [];
    assert Ascending(r) by { EmptyIsAscending(); }
    for i := 0 to |s|
      invariant Ascending(r) && multiset(r) == multiset(s[..i])
    {
      assert s[..i + 1] == s[..i] + [s[i]];
      r := Insert(r, s[i]);
    }
    assert s[..|s|] == s;
  }

  lemma EmptyIsAscending()
    ensures Ascending([])
  {}
}
