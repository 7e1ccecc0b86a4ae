/** Counting facts about finite lists and sets of indices. */
module Finite {

  function UpTo(n: nat): (s: set<nat>)
    ensures |s| == n
    ensures forall x: nat :: x in s <==> x < n
  {
    if n == 0 then {} else UpTo(n - 1) + {n - 1}
  }

  function Elems<T(!new)>(s: seq<T>): (r: set<T>)
    ensures forall x :: x in r <==> x in s
  {
    if s == [] then {} else Elems(s[..|s| - 1]) + {s[|s| - 1]}
  }

  ghost predicate NoDup<T>(s: seq<T>) {
    forall i, j :: 0 <= i < j < |s| ==> s[i] != s[j]
  }

  lemma {:induction false} ElemsSize<T(!new)>(s: seq<T>)
    requires NoDup(s)
    ensures |Elems(s)| == |s|
  {
    if s != [] {
      ElemsSize(s[..|s| - 1]);
    }
  }

  lemma SubsetEqual<T>(t: set<T>, s: set<T>)
    requires t <= s && |t| == |s|
    ensures t == s
  {
    assert s == t + (s - t);
  }

  lemma SubsetSize<T>(t: set<T>, s: set<T>)
    requires t <= s
    ensures |t| <= |s|
  {
    assert s == t + (s - t);
  }

  // n distinct numbers below n are all the numbers below n.
  lemma Surjective(s: seq<nat>, x: nat)
    requires NoDup(s) && x < |s| && forall i :: 0 <= i < |s| ==> s[i] < |s|
    ensures x in s
  {
    ElemsSize(s);
    SubsetEqual(Elems(s), UpTo(|s|));
  }
}
