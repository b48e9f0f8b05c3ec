/** Sums and list helpers shared by the discrete computations.
    Sums are taken left to right, the order of the source's `+=` loops. */
module Seqs {

  /** s[0] + s[1] + ... + s[|s|-1] */
  function Sum(s: seq<real>): real
    decreases |s|
  {
    if s == [] then 0.0 else Sum(s[..|s| - 1]) + s[|s| - 1]
  }

  /** f(s[0]) + ... + f(s[|s|-1]) */
  function SumBy<T>(s: seq<T>, f: T -> real): real
    decreases |s|
  {
    if s == [] then 0.0 else SumBy(s[..|s| - 1], f) + f(s[|s| - 1])
  }

  /** The pointwise products u[i]*v[i]. */
  function Products(u: seq<real>, v: seq<real>): (r: seq<real>)
    requires |u| == |v|
    ensures |r| == |u|
  {
    seq(|u|, i requires 0 <= i < |u| => u[i] * v[i])
  }

  /** u[0]*v[0] + ... : the weighted sums of Mean and Variance. */
  function Dot(u: seq<real>, v: seq<real>): real
    requires |u| == |v|
  {
    Sum(Products(u, v))
  }

  /** Running sums: c[i] = f[0] + ... + f[i]. */
  function PrefixSums(f: seq<real>): seq<real> {
    seq(|f|, i requires 0 <= i < |f| => Sum(f[..i + 1]))
  }

  /** First differences, element 0 kept. */
  function Differences(c: seq<real>): seq<real> {
    seq(|c|, i requires 0 <= i < |c| => if i == 0 then c[0] else c[i] - c[i - 1])
  }

  function Reverse<T>(s: seq<T>): seq<T> {
    seq(|s|, i requires 0 <= i < |s| => s[|s| - 1 - i])
  }

  /** Python's list.count. */
  function Count<T(==)>(s: seq<T>, v: T): nat
    decreases |s|
  {
    if s == [] then 0 else Count(s[..|s| - 1], v) + (if s[|s| - 1] == v then 1 else 0)
  }

  /** Python's list.index: the first position holding v. */
  function IndexOf<T(==)>(s: seq<T>, v: T): (k: nat)
    requires v in s
    ensures k < |s| && s[k] == v && v !in s[..k]
  {
    if s[0] == v then 0 else 1 + IndexOf(s[1..], v)
  }

  predicate NoDup<T(==)>(s: seq<T>) {
    forall i, j :: 0 <= i < j < |s| ==> s[i] != s[j]
  }

  predicate StrictlyIncreasing(s: seq<real>) {
    forall i, j :: 0 <= i < j < |s| ==> s[i] < s[j]
  }

  lemma {:induction false} AppendAbove(s: seq<real>, x: real)
    requires StrictlyIncreasing(s) && forall j :: 0 <= j < |s| ==> s[j] < x
    ensures StrictlyIncreasing(s + [x])
  {
  }

  /** The lookup of a discrete point evaluation: `func[support.index(v)]`
      when v is an atom, `dflt` (the source's 0) otherwise. */
  function Lookup<K(==), V>(keys: seq<K>, vals: seq<V>, v: K, dflt: V): V
    requires |keys| <= |vals|
  {
    if v in keys then vals[IndexOf(keys, v)] else dflt
  }

  lemma {:induction false} SumByLast<T>(s: seq<T>, i: nat, f: T -> real)
    requires i < |s|
    ensures SumBy(s[..i + 1], f) == SumBy(s[..i], f) + f(s[i])
  {
    assert s[..i + 1][..i] == s[..i];
  }

  /** Sum split before its last term, at an index named by the caller. */
  lemma {:induction false} SumAt(s: seq<real>, n: nat)
    requires n + 1 == |s|
    ensures Sum(s) == Sum(s[..n]) + s[n]
  {
  }

  lemma {:induction false} SumLast(s: seq<real>, i: nat)
    requires i < |s|
    ensures Sum(s[..i + 1]) == Sum(s[..i]) + s[i]
  {
    assert s[..i + 1][..i] == s[..i];
  }

  lemma {:induction false} ProductsPrefix(u: seq<real>, v: seq<real>, k: nat)
    requires |u| == |v| && k <= |u|
    ensures Products(u[..k], v[..k]) == Products(u, v)[..k]
  {
    forall j | 0 <= j < k ensures Products(u[..k], v[..k])[j] == Products(u, v)[..k][j] {
      var x, y := u[j], v[j];
      assert u[..k][j] == x && v[..k][j] == y;
      assert Products(u, v)[j] == x * y;
    }
  }

  lemma {:induction false} DotLast(u: seq<real>, v: seq<real>, i: nat)
    requires |u| == |v| && i < |u|
    ensures Dot(u[..i + 1], v[..i + 1]) == Dot(u[..i], v[..i]) + u[i] * v[i]
  {
    ProductsPrefix(u, v, i + 1);
    ProductsPrefix(u, v, i);
    SumLast(Products(u, v), i);
  }

  lemma {:induction false} SumByConcat<T>(a: seq<T>, b: seq<T>, f: T -> real)
    ensures SumBy(a + b, f) == SumBy(a, f) + SumBy(b, f)
    decreases |b|
  {
    if b == [] {
      assert a + b == a;
    } else {
      var b' := b[..|b| - 1];
      assert (a + b)[..|a + b| - 1] == a + b';
      SumByConcat(a, b', f);
    }
  }

  lemma {:induction false} SumByZero<T>(s: seq<T>, f: T -> real)
    requires forall i :: 0 <= i < |s| ==> f(s[i]) == 0.0
    ensures SumBy(s, f) == 0.0
    decreases |s|
  {
    if s != [] {
      SumByZero(s[..|s| - 1], f);
    }
  }

  /** Adding d to one element of a list adds d to its sum. */
  lemma {:induction false} SumUpdate(s: seq<real>, m: nat, d: real)
    requires m < |s|
    ensures Sum(s[m := s[m] + d]) == Sum(s) + d
    decreases |s|
  {
    var t := s[m := s[m] + d];
    if m == |s| - 1 {
      assert t[..|t| - 1] == s[..|s| - 1];
    } else {
      assert t[..|t| - 1] == s[..|s| - 1][m := s[m] + d];
      SumUpdate(s[..|s| - 1], m, d);
    }
  }

  lemma {:induction false} SumConcat(a: seq<real>, b: seq<real>)
    ensures Sum(a + b) == Sum(a) + Sum(b)
    decreases |b|
  {
    if b == [] {
      assert a + b == a;
    } else {
      var b' := b[..|b| - 1];
      assert (a + b)[..|a + b| - 1] == a + b';
      SumConcat(a, b');
    }
  }

  lemma {:induction false} CountLast<T>(s: seq<T>, i: nat, v: T)
    requires i < |s|
    ensures Count(s[..i + 1], v) == Count(s[..i], v) + (if s[i] == v then 1 else 0)
  {
    assert s[..i + 1][..i] == s[..i];
  }

  /** Every element of s multiplied by k. */
  function Scale(k: real, s: seq<real>): (r: seq<real>)
    ensures |r| == |s|
  {
    seq(|s|, i requires 0 <= i < |s| => k * s[i])
  }

  lemma {:induction false} Distribute(k: real, s: real, a: real, b: real)
    requires s == a + b
    ensures k * s == k * a + k * b
  {
  }

  lemma {:induction false} ScaleStep(s: seq<real>, k: real, i: nat)
    requires 0 < i <= |s|
    requires Sum(Scale(k, s)[..i - 1]) == k * Sum(s[..i - 1])
    ensures Sum(Scale(k, s)[..i]) == k * Sum(s[..i])
  {
    var t := Scale(k, s);
    SumLast(t, i - 1);
    SumLast(s, i - 1);
    assert t[i - 1] == k * s[i - 1];
    Distribute(k, Sum(s[..i]), Sum(s[..i - 1]), s[i - 1]);
  }

  lemma {:induction false} ScalePrefix(s: seq<real>, k: real, i: nat)
    requires i <= |s|
    ensures Sum(Scale(k, s)[..i]) == k * Sum(s[..i])
  {
    if i == 0 {
      assert Scale(k, s)[..0] == [] && s[..0] == [];
    } else {
      ScalePrefix(s, k, i - 1);
      ScaleStep(s, k, i);
    }
  }

  /** A constant factor comes out of a sum. */
  lemma {:induction false} ScaleSum(s: seq<real>, k: real)
    ensures Sum(Scale(k, s)) == k * Sum(s)
  {
    ScalePrefix(s, k, |s|);
    assert Scale(k, s)[..|s|] == Scale(k, s) && s[..|s|] == s;
  }

  /** f applied to every element. */
  function Image<T>(s: seq<T>, f: T -> real): (r: seq<real>)
    ensures |r| == |s|
  {
    seq(|s|, i requires 0 <= i < |s| => f(s[i]))
  }

  /** A sum by f is the sum of the images. */
  lemma {:induction false} SumByImage<T>(s: seq<T>, f: T -> real)
    ensures SumBy(s, f) == Sum(Image(s, f))
    decreases |s|
  {
    if s != [] {
      var n := |s| - 1;
      SumByImage(s[..n], f);
      assert Image(s, f)[..n] == Image(s[..n], f);
    }
  }

  lemma {:induction false} FactorRight(b: real, a: real, c: real, t: real, s0: real, f: real, s1: real)
    requires a == s0 * t && c == f * t && b == a + c && s1 == s0 + f
    ensures b == s1 * t
  {
  }

  /** A list of multiples of t sums to t times the sum of the factors. */
  lemma {:induction false} SumOfMultiples(m: seq<real>, f: seq<real>, t: real, n: nat)
    requires |m| == n && |f| == n && forall i :: 0 <= i < n ==> m[i] == f[i] * t
    ensures Sum(m) == Sum(f) * t
  {
    if n > 0 {
      SumOfMultiples(m[..n - 1], f[..n - 1], t, n - 1);
      SumAt(m, n - 1);
      SumAt(f, n - 1);
      FactorRight(Sum(m), Sum(m[..n - 1]), m[n - 1], t, Sum(f[..n - 1]), f[n - 1], Sum(f));
    }
  }

  /** A sum of non-negative terms is non-negative. */
  lemma {:induction false} SumNonNegative(s: seq<real>)
    requires forall k :: 0 <= k < |s| ==> s[k] >= 0.0
    ensures Sum(s) >= 0.0
    decreases |s|
  {
    if s != [] {
      SumNonNegative(s[..|s| - 1]);
    }
  }

  /** A termwise difference of two lists sums to the difference of their sums. */
  lemma {:induction false} SumDifference(e: seq<real>, q: seq<real>, r: seq<real>, n: nat)
    requires |e| == n && |q| == n && |r| == n
    requires forall k :: 0 <= k < n ==> e[k] == q[k] - r[k]
    ensures Sum(e) == Sum(q) - Sum(r)
  {
    if n > 0 {
      SumDifference(e[..n - 1], q[..n - 1], r[..n - 1], n - 1);
      SumAt(e, n - 1);
      SumAt(q, n - 1);
      SumAt(r, n - 1);
    }
  }

  /** Entry by entry, e is t times u plus w times v. */
  predicate IsTwoMultiples(e: seq<real>, u: seq<real>, v: seq<real>, t: real, w: real) {
    |e| == |u| == |v| && forall k :: 0 <= k < |e| ==> e[k] == t * u[k] + w * v[k]
  }

  /** A list of entries t * u[k] + w * v[k] sums to t * Sum(u) + w * Sum(v). */
  lemma {:induction false} SumOfTwoMultiples(e: seq<real>, u: seq<real>, v: seq<real>, t: real, w: real)
    requires IsTwoMultiples(e, u, v, t, w)
    ensures Sum(e) == t * Sum(u) + w * Sum(v)
    decreases |e|
  {
    var n := |e|;
    if n > 0 {
      assert IsTwoMultiples(e[..n - 1], u[..n - 1], v[..n - 1], t, w);
      SumOfTwoMultiples(e[..n - 1], u[..n - 1], v[..n - 1], t, w);
      SumAt(e, n - 1);
      SumAt(u, n - 1);
      SumAt(v, n - 1);
      TwoMultiplesStep(Sum(e), Sum(e[..n - 1]), e[n - 1], t, w, Sum(u[..n - 1]), u[n - 1], Sum(u),
                       Sum(v[..n - 1]), v[n - 1], Sum(v));
    }
  }

  lemma {:induction false} TwoMultiplesStep(se: real, se0: real, el: real, t: real, w: real,
                                            su0: real, ul: real, su: real, sv0: real, vl: real, sv: real)
    requires se == se0 + el && se0 == t * su0 + w * sv0 && el == t * ul + w * vl
    requires su == su0 + ul && sv == sv0 + vl
    ensures se == t * su + w * sv
  {
  }

  lemma {:induction false} SumOfZeros(s: seq<real>)
    requires forall k :: 0 <= k < |s| ==> s[k] == 0.0
    ensures Sum(s) == 0.0
    decreases |s|
  {
    if s != [] {
      SumOfZeros(s[..|s| - 1]);
    }
  }
}
