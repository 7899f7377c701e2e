/** The positions at which a property holds, in order: how filtered lists and their counts are specified. */
module Positions {

  ghost function Where(n: nat, p: nat -> bool): seq<nat> {
    if n == 0 then [] else Where(n - 1, p) + (if p(n - 1) then [n - 1] else [])
  }

  /** They are in strictly increasing order, and exactly those below n with the property. */
  lemma {:induction false} WhereLists(n: nat, p: nat -> bool)
    ensures forall i, j :: 0 <= i < j < |Where(n, p)| ==> Where(n, p)[i] < Where(n, p)[j]
    ensures forall k: nat :: k in Where(n, p) <==> k < n && p(k)
  {
    if n > 0 {
      WhereLists(n - 1, p);
      var earlier := Where(n - 1, p);
      forall i | 0 <= i < |earlier| ensures earlier[i] < n - 1 {
        assert earlier[i] in earlier;
      }
    }
  }

  lemma {:induction false} WhereSame(n: nat, p: nat -> bool, q: nat -> bool)
    requires forall k: nat :: k < n ==> p(k) == q(k)
    ensures Where(n, p) == Where(n, q)
  {
    if n > 0 {
      WhereSame(n - 1, p, q);
    }
  }

  /** One position more. */
  lemma WhereNext(n: nat, p: nat -> bool, q: nat -> bool)
    requires forall k: nat :: k < n ==> p(k) == q(k)
    ensures Where(n + 1, q) == Where(n, p) + (if q(n) then [n] else [])
  {
    WhereSame(n, p, q);
  }
}
