/** Small shared vocabulary: optional values, weighted sums over sequences, and facts about finite sets. */
module Prelude {

  datatype Option<+T> = None | Some(value: T)

  /** The sum of a weight over a sequence. */
  function Sum<T>(weight: T -> int, s: seq<T>): int {
    if s == [] then 0 else weight(s[0]) + Sum(weight, s[1..])
  }

  lemma {:induction false} SumAppend<T>(weight: T -> int, s: seq<T>, x: T)
    ensures Sum(weight, s + [x]) == Sum(weight, s) + weight(x)
  {
    if s == [] {
      assert s + [x] == [x];
    } else {
      assert (s + [x])[1..] == s[1..] + [x];
      SumAppend(weight, s[1..], x);
    }
  }

  lemma {:induction false} SumUpdate<T>(weight: T -> int, s: seq<T>, i: nat, x: T)
    requires i < |s|
    ensures Sum(weight, s[i := x]) == Sum(weight, s) - weight(s[i]) + weight(x)
  {
    if i == 0 {
      assert s[i := x][1..] == s[1..];
    } else {
      assert s[i := x][1..] == s[1..][i - 1 := x];
      SumUpdate(weight, s[1..], i - 1, x);
    }
  }

  /** A pointwise comparison of two weights carries over to their sums. */
  lemma {:induction false} SumMonotone<T>(low: T -> int, high: T -> int, s: seq<T>)
    requires forall x <- s :: low(x) <= high(x)
    ensures Sum(low, s) <= Sum(high, s)
  {
    if s != [] {
      assert s[0] in s;
      SumMonotone(low, high, s[1..]);
    }
  }

  function Elems<T>(s: seq<T>): set<T> { set x | x in s }

  lemma ElemsStep<T>(s: seq<T>, i: nat)
    requires i < |s|
    ensures Elems(s[..i + 1]) == Elems(s[..i]) + {s[i]}
  {
    assert s[..i + 1] == s[..i] + [s[i]];
  }

  lemma PrefixStep<T>(s: seq<T>, i: nat)
    requires i < |s|
    ensures s[..i + 1] == s[..i] + [s[i]]
  {}

  ghost predicate Distinct<T>(s: seq<T>) { forall i, j | 0 <= i < j < |s| :: s[i] != s[j] }

  lemma {:induction false} LeastOf(s: set<nat>) returns (low: nat)
    requires s != {}
    ensures low in s && forall m <- s :: low <= m
  {
    low :| low in s;
    var rest := s - {low};
    assert forall m <- s :: m == low || m in rest;
    if rest != {} {
      var l := LeastOf(rest);
      if l < low { low := l; }
    }
  }

  lemma LeastExists(s: set<nat>)
    requires s != {}
    ensures exists n :: n in s && forall m <- s :: n <= m
  {
    var n := LeastOf(s);
  }

  /** The first element of an ordered set. */
  function Least(s: set<nat>): (n: nat)
    requires s != {}
    ensures n in s && forall m <- s :: n <= m
  {
    LeastExists(s);
    var n :| n in s && forall m <- s :: n <= m;
    n
  }

  /** A fact that is stated for every reader is carried along as it is: its proof and its use name one, and elsewhere
      the verifier does not look into it. */
  predicate Reader(i: nat) { true }
}
