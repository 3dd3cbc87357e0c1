/** Shuffling by random draws: which order comes out, and that every order can. */
module Shuffling {
  import opened Sequences

  function Swap<T>(s: seq<T>, i: nat, j: nat): (r: seq<T>)
    requires i < |s| && j < |s|
    ensures multiset(r) == multiset(s) && |r| == |s|
  {
    s[i := s[j]][j := s[i]]
  }

  /** Which of the first n elements the n-th changes places with. */
  function Pick(draws: nat -> nat, n: nat): (j: nat)
    requires n > 0
    ensures j < n
  {
    draws(n - 1) % n
  }

  lemma PickIs(draws: nat -> nat, n: nat, j: nat)
    requires n > 0 && j < n && draws(n - 1) == j
    ensures Pick(draws, n) == j
  {}

  /** The first n elements shuffled: the last of them changes places with the one drawn,
      and so on downwards. */
  function Shuffled<T>(s: seq<T>, n: nat, draws: nat -> nat): (r: seq<T>)
    requires n <= |s|
    ensures multiset(r) == multiset(s) && |r| == |s|
    decreases n
  {
    if n <= 1 then s else Shuffled(Swap(s, n - 1, Pick(draws, n)), n - 1, draws)
  }

  lemma SwapInPlace<T>(s: seq<T>, r: seq<T>, i: nat, j: nat)
    requires i < |s| == |r| && j < |s| && r == s[i := s[j]][j := s[i]]
    ensures r == Swap(s, i, j)
  {}

  /** Every order of the elements comes out of some draws. */
  lemma {:induction false} EveryOrderCanBeDrawn<T>(s: seq<T>, n: nat, r: seq<T>) returns (draws: nat -> nat)
    requires n <= |s| == |r| && multiset(s[..n]) == multiset(r[..n]) && s[n..] == r[n..]
    ensures Shuffled(s, n, draws) == r
    decreases n
  {
    hide Swap, Pick, Shuffled;
    if n <= 1 {
      draws := (_: nat) => 0;
      FirstIsSame(s, n, r);
      NothingToShuffle(s, n, draws);
    } else {
      var j := SameElements(r[..n], s[..n], n - 1);
      BringsLast(s, n, r, j);
      var rest := EveryOrderCanBeDrawn(Swap(s, n - 1, j), n - 1, r);
      draws := DrawFirst(s, n, j, rest);
    }
  }

  lemma NothingToShuffle<T>(s: seq<T>, n: nat, draws: nat -> nat)
    requires n <= 1 && n <= |s|
    ensures Shuffled(s, n, draws) == s
  {}

  lemma DrawFirst<T>(s: seq<T>, n: nat, j: nat, rest: nat -> nat) returns (draws: nat -> nat)
    requires 1 < n <= |s| && j < n
    ensures Shuffled(s, n, draws) == Shuffled(Swap(s, n - 1, j), n - 1, rest)
  {
    hide Swap, Pick;
    draws := (k: nat) => if k == n - 1 then j else rest(k);
    PickIs(draws, n, j);
    SameDraws(Swap(s, n - 1, j), n - 1, rest, draws);
  }

  lemma FirstIsSame<T>(s: seq<T>, n: nat, r: seq<T>)
    requires n <= 1 && n <= |s| == |r| && multiset(s[..n]) == multiset(r[..n]) && s[n..] == r[n..]
    ensures s == r
  {
    if n == 1 {
      var k := SameElements(s[..1], r[..1], 0);
    }
    assert s == s[..n] + s[n..] && r == r[..n] + r[n..];
  }

  /** With the element that is to be last swapped to the end, the rest has to be ordered. */
  lemma BringsLast<T>(s: seq<T>, n: nat, r: seq<T>, j: nat)
    requires 1 < n <= |s| == |r| && multiset(s[..n]) == multiset(r[..n]) && s[n..] == r[n..]
    requires j < n && s[j] == r[n - 1]
    ensures var t := Swap(s, n - 1, j);
      multiset(t[..n - 1]) == multiset(r[..n - 1]) && t[n - 1..] == r[n - 1..]
  {
    var t := Swap(s, n - 1, j);
    SwapPrefix(s, n, j);
    SameWithoutLast(t[..n], r[..n]);
    assert t[..n][..n - 1] == t[..n - 1] && r[..n][..n - 1] == r[..n - 1];
    assert t[n - 1..] == [t[n - 1]] + t[n..] && r[n - 1..] == [r[n - 1]] + r[n..];
  }

  lemma SwapPrefix<T>(s: seq<T>, n: nat, j: nat)
    requires 1 < n <= |s| && j < n
    ensures var t := Swap(s, n - 1, j);
      t[..n] == Swap(s[..n], n - 1, j) && t[n..] == s[n..] && t[n - 1] == s[j]
  {}

  lemma SameWithoutLast<T>(a: seq<T>, b: seq<T>)
    requires a != [] && |a| == |b| && multiset(a) == multiset(b) && a[|a| - 1] == b[|b| - 1]
    ensures multiset(a[..|a| - 1]) == multiset(b[..|b| - 1])
  {
    assert a == a[..|a| - 1] + [a[|a| - 1]] && b == b[..|b| - 1] + [b[|b| - 1]];
    assert multiset(a[..|a| - 1]) == multiset(a) - multiset{a[|a| - 1]};
  }

  lemma {:induction false} SameDraws<T>(s: seq<T>, n: nat, a: nat -> nat, b: nat -> nat)
    requires n <= |s| && forall k: nat :: k < n ==> a(k) == b(k)
    ensures Shuffled(s, n, a) == Shuffled(s, n, b)
    decreases n
  {
    hide Swap;
    if n > 1 {
      SameDraws(Swap(s, n - 1, Pick(a, n)), n - 1, a, b);
    }
  }
}
