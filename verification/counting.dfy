/** Counting and summing over sequences, used by the contour loops of every screen. */
module Counting {

  /** Number of elements of `s` that satisfy `f`, counted from the front as a loop would. */
  function CountIf<T>(s: seq<T>, f: T -> bool): (n: nat)
    ensures n <= |s|
  {
    if |s| == 0 then 0
    else CountIf(s[..|s| - 1], f) + (if f(s[|s| - 1]) then 1 else 0)
  }

  /** The positions of `s` whose element satisfies `f`. */
  ghost function Witnesses<T>(s: seq<T>, f: T -> bool): set<int>
  {
    set k | 0 <= k < |s| && f(s[k])
  }

  /** The count is the number of positions that satisfy the predicate. */
  lemma {:induction false} CountIfIsCardinality<T>(s: seq<T>, f: T -> bool)
    ensures CountIf(s, f) == |Witnesses(s, f)|
  {
    if |s| == 0 {
      assert Witnesses(s, f) == {};
    } else {
      var n := |s| - 1;
      var p := s[..n];
      CountIfIsCardinality(p, f);
      assert forall k :: 0 <= k < n ==> p[k] == s[k];
      assert n !in Witnesses(p, f);
      if f(s[n]) {
        assert Witnesses(s, f) == Witnesses(p, f) + {n};
      } else {
        assert Witnesses(s, f) == Witnesses(p, f);
      }
    }
  }

  /** A predicate that holds wherever another does never counts fewer elements. */
  lemma {:induction false} CountIfMonotone<T>(s: seq<T>, f: T -> bool, g: T -> bool)
    requires forall k :: 0 <= k < |s| && f(s[k]) ==> g(s[k])
    ensures CountIf(s, f) <= CountIf(s, g)
  {
    if |s| > 0 {
      var p := s[..|s| - 1];
      assert forall k :: 0 <= k < |p| ==> p[k] == s[k];
      CountIfMonotone(p, f, g);
    }
  }

  /** Predicates that agree on every element count the same. */
  lemma CountIfAgree<T>(s: seq<T>, f: T -> bool, g: T -> bool)
    requires forall k :: 0 <= k < |s| ==> f(s[k]) == g(s[k])
    ensures CountIf(s, f) == CountIf(s, g)
  {
    CountIfMonotone(s, f, g);
    CountIfMonotone(s, g, f);
  }

  function SumNat(s: seq<nat>): nat
  {
    if |s| == 0 then 0 else SumNat(s[..|s| - 1]) + s[|s| - 1]
  }

  /** Replacing one element changes the sum by the difference. */
  lemma {:induction false} SumNatUpdate(s: seq<nat>, i: int, v: nat)
    requires 0 <= i < |s|
    ensures SumNat(s[i := v]) + s[i] == SumNat(s) + v
  {
    var n := |s| - 1;
    if i < n {
      assert s[i := v][..n] == s[..n][i := v];
      SumNatUpdate(s[..n], i, v);
    } else {
      assert s[i := v][..n] == s[..n];
    }
  }

  /** A sequence of zeros sums to zero. */
  lemma {:induction false} SumNatZeros(s: seq<nat>)
    requires forall k :: 0 <= k < |s| ==> s[k] == 0
    ensures SumNat(s) == 0
  {
    if |s| > 0 {
      SumNatZeros(s[..|s| - 1]);
    }
  }

  function SumReals(s: seq<real>): real
  {
    if |s| == 0 then 0.0 else SumReals(s[..|s| - 1]) + s[|s| - 1]
  }

  /** Elements bounded by `lo` and `hi` give a sum between |s|·lo and |s|·hi. */
  lemma {:induction false} SumRealsBounds(s: seq<real>, lo: real, hi: real)
    requires forall k :: 0 <= k < |s| ==> lo <= s[k] <= hi
    ensures (|s| as real) * lo <= SumReals(s) <= (|s| as real) * hi
  {
    if |s| > 0 {
      var p := s[..|s| - 1];
      assert forall k :: 0 <= k < |p| ==> p[k] == s[k];
      SumRealsBounds(p, lo, hi);
      assert (|s| as real) * lo == (|p| as real) * lo + lo;
      assert (|s| as real) * hi == (|p| as real) * hi + hi;
    }
  }
}
