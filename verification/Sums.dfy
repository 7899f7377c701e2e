/** Weighted sums over sequences: the bookkeeping behind every conservation law of the project. */
module Sums {

  function Sum<T>(s: seq<T>, f: T -> nat): nat {
    if s == [] then 0 else f(s[0]) + Sum(s[1..], f)
  }

  lemma {:induction false} SumAppend<T>(s: seq<T>, x: T, f: T -> nat)
    ensures Sum(s + [x], f) == Sum(s, f) + f(x)
  {
    if s == [] {
      assert s + [x] == [x];
      assert [x][1..] == [];
    } else {
      assert (s + [x])[1..] == s[1..] + [x];
      SumAppend(s[1..], x, f);
    }
  }

  lemma {:induction false} SumUpdate<T>(s: seq<T>, k: nat, x: T, f: T -> nat)
    requires k < |s|
    ensures Sum(s[k := x], f) + f(s[k]) == Sum(s, f) + f(x)
  {
    if k == 0 {
      assert s[k := x][1..] == s[1..];
    } else {
      assert s[k := x][1..] == s[1..][k - 1 := x];
      SumUpdate(s[1..], k - 1, x, f);
    }
  }

  /** Weights that balance element by element balance in total. */
  lemma {:induction false} SumBalance<T>(
    s: seq<T>, f: T -> nat, g: T -> nat, h: T -> nat, k: T -> nat, l: T -> nat, m: T -> nat)
    requires forall x :: x in s ==> f(x) + g(x) + h(x) == k(x) + l(x) + m(x)
    ensures Sum(s, f) + Sum(s, g) + Sum(s, h) == Sum(s, k) + Sum(s, l) + Sum(s, m)
  {
    if s != [] {
      assert s[0] in s;
      SumBalance(s[1..], f, g, h, k, l, m);
    }
  }

  /** A weight that grows by d at one of several distinct elements grows by d in total. */
  lemma {:induction false} SumRaisedAt<T>(s: seq<T>, f: T -> nat, g: T -> nat, at: T, d: nat)
    requires forall i, j :: 0 <= i < j < |s| ==> s[i] != s[j]
    requires forall x :: x in s ==> g(x) == f(x) + (if x == at then d else 0)
    ensures Sum(s, g) == Sum(s, f) + (if at in s then d else 0)
  {
    if s != [] {
      assert s == [s[0]] + s[1..];
      SumRaisedAt(s[1..], f, g, at, d);
    }
  }
}
