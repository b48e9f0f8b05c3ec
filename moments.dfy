/** Mean and Variance of a discrete RV: weighted sums over the atoms of
    its PDF, built with the source's two loops (a list of terms, then an
    accumulating `+=`). */
module Moments {
  import opened ExtReals
  import opened Seqs
  import opened RandomVariables
  import opened DiscreteForms

  /** The atoms squared, x**2 for each x. */
  function Squares(a: seq<real>): (s: seq<real>)
    ensures |s| == |a|
  {
    seq(|a|, i requires 0 <= i < |a| => a[i] * a[i])
  }

  /** The accumulating loop `val = 0; for t in terms: val += t`. */
  method Accumulate(terms: seq<real>) returns (total: real)
    ensures total == Sum(terms)
  {
    total := 0.0;
    for i := 0 to |terms|
      invariant total == Sum(terms[..i])
    {
      SumLast(terms, i);
      total := total + terms[i];
    }
    assert terms[..|terms|] == terms;
  }

  /** The list of terms w[i] * a[i], and the proof that it sums to Dot(a, w). */
  method WeightedTerms(a: seq<real>, w: seq<real>) returns (terms: seq<real>)
    requires |a| == |w|
    ensures |terms| == |a| && Sum(terms) == Dot(a, w)
  {
    terms := [];
    for i := 0 to |a|
      invariant |terms| == i
      invariant forall k :: 0 <= k < i ==> terms[k] == w[k] * a[k]
      invariant Sum(terms) == Dot(a[..i], w[..i])
    {
      DotLast(a, w, i);
      assert (terms + [w[i] * a[i]])[..i] == terms;
      terms := terms + [w[i] * a[i]];
    }
    assert a[..|a|] == a && w[..|w|] == w;
  }

  /** The mean of a discrete RV: the atoms weighted by their probabilities. */
  function MeanOf(X: RV<real>): real
    requires Convertible(X) && AllFinite(X.support)
  {
    Dot(Values(X.support), PdfOf(X).func)
  }

  /** Mean, discrete branch: the sum over the atoms of x * f(x). */
  method Mean(X: RV<real>) returns (m: real)
    requires Convertible(X) && AllFinite(X.support)
    ensures m == MeanOf(X)
  {
    var p := PDF(X, Symbol);
    var dummy := p.value.rv;
    var meanlist := WeightedTerms(Values(dummy.support), dummy.func);
    m := Accumulate(meanlist);
  }

  /** Variance, discrete branch: E[X^2] - Mean^2. */
  method Variance(X: RV<real>) returns (v: real)
    requires Convertible(X) && AllFinite(X.support)
    ensures var a, f := Values(X.support), PdfOf(X).func;
      v == Dot(Squares(a), f) - Dot(a, f) * Dot(a, f)
  {
    var p := PDF(X, Symbol);
    var dummy := p.value.rv;
    PdfOfIdempotent(X);
    var ex := Mean(dummy);
    var exx := SecondMoment(Values(dummy.support), dummy.func);
    v := exx - ex * ex;
  }

  /** E(X^2): the list of f(x) * x**2, then its sum. */
  method SecondMoment(a: seq<real>, f: seq<real>) returns (exx: real)
    requires |a| == |f|
    ensures exx == Dot(Squares(a), f)
  {
    var exxlist := WeightedTerms(Squares(a), f);
    exx := Accumulate(exxlist);
  }

  /** The terms w[i] * (a[i] - mu)^2. */
  function CentralTerms(a: seq<real>, w: seq<real>, mu: real): (r: seq<real>)
    requires |a| == |w|
    ensures |r| == |a|
  {
    seq(|a|, i requires 0 <= i < |a| => w[i] * ((a[i] - mu) * (a[i] - mu)))
  }

  /** Sum of w[i] * (a[i] - mu)^2: the second moment about mu. */
  function CentralSum(a: seq<real>, w: seq<real>, mu: real): real
    requires |a| == |w|
  {
    Sum(CentralTerms(a, w, mu))
  }

  /** Sums respect a fixed linear combination of their terms. */
  lemma {:induction false} Combine(e: seq<real>, q: seq<real>, r: seq<real>, t: seq<real>, n: nat)
    requires |e| == n && |q| == n && |r| == n && |t| == n
    requires forall k :: 0 <= k < n ==> e[k] == q[k] - 2.0 * r[k] + t[k]
    ensures Sum(e) == Sum(q) - 2.0 * Sum(r) + Sum(t)
  {
    if n > 0 {
      Combine(e[..n - 1], q[..n - 1], r[..n - 1], t[..n - 1], n - 1);
      SumAt(e, n - 1);
      SumAt(q, n - 1);
      SumAt(r, n - 1);
      SumAt(t, n - 1);
    }
  }

  lemma {:induction false} ExpandTerm(x: real, s: real, p: real, mu: real)
    requires s == x * x
    ensures p * ((x - mu) * (x - mu)) == s * p - 2.0 * (mu * (x * p)) + (mu * mu) * p
  {
  }

  /** One central term, expanded into a term of E(X^2), of mu E(X) and of mu^2 mass. */
  lemma {:induction false} CentralTermAt(a: seq<real>, w: seq<real>, mu: real, i: nat)
    requires |a| == |w| && i < |a|
    ensures CentralTerms(a, w, mu)[i]
         == Products(Squares(a), w)[i] - 2.0 * Scale(mu, Products(a, w))[i] + Scale(mu * mu, w)[i]
  {
    var x, p := a[i], w[i];
    var s := Squares(a)[i];
    assert s == x * x;
    assert Products(Squares(a), w)[i] == s * p;
    assert Scale(mu, Products(a, w))[i] == mu * (x * p);
    assert Scale(mu * mu, w)[i] == (mu * mu) * p;
    assert CentralTerms(a, w, mu)[i] == p * ((x - mu) * (x - mu));
    ExpandTerm(x, s, p, mu);
  }

  /** The central terms split termwise, so their sums split the same way. */
  lemma {:induction false} TermsCombine(a: seq<real>, w: seq<real>, mu: real)
    requires |a| == |w|
    ensures Sum(CentralTerms(a, w, mu))
         == Sum(Products(Squares(a), w)) - 2.0 * Sum(Scale(mu, Products(a, w))) + Sum(Scale(mu * mu, w))
  {
    var e, q := CentralTerms(a, w, mu), Products(Squares(a), w);
    var r, t := Scale(mu, Products(a, w)), Scale(mu * mu, w);
    forall k | 0 <= k < |a| ensures e[k] == q[k] - 2.0 * r[k] + t[k] {
      CentralTermAt(a, w, mu, k);
    }
    Combine(e, q, r, t, |a|);
  }

  /** sum w (x - mu)^2 = E(X^2) - 2 mu E(X) + mu^2 * total mass. */
  lemma {:induction false} CentralSumExpands(a: seq<real>, w: seq<real>, mu: real)
    requires |a| == |w|
    ensures CentralSum(a, w, mu) == Dot(Squares(a), w) - 2.0 * (mu * Dot(a, w)) + (mu * mu) * Sum(w)
  {
    TermsCombine(a, w, mu);
    ScaleSum(Products(a, w), mu);
    ScaleSum(w, mu * mu);
    DotIsSum(Squares(a), w);
    DotIsSum(a, w);
    CentralSumIsSum(a, w, mu);
    Assemble(CentralSum(a, w, mu), Sum(CentralTerms(a, w, mu)), Dot(Squares(a), w), Sum(Products(Squares(a), w)),
      Dot(a, w), Sum(Scale(mu, Products(a, w))), Sum(Scale(mu * mu, w)), Sum(w), mu);
  }

  lemma {:induction false} DotIsSum(u: seq<real>, v: seq<real>)
    requires |u| == |v|
    ensures Dot(u, v) == Sum(Products(u, v))
  {
  }

  lemma {:induction false} CentralSumIsSum(a: seq<real>, w: seq<real>, mu: real)
    requires |a| == |w|
    ensures CentralSum(a, w, mu) == Sum(CentralTerms(a, w, mu))
  {
  }

  /** The last step of CentralSumExpands, over named sums. */
  lemma {:induction false} Assemble(c: real, se: real, d: real, sq: real, m: real, sr: real, st: real, s: real, mu: real)
    requires c == se && d == sq && se == sq - 2.0 * sr + st
    requires sr == mu * m && st == (mu * mu) * s
    ensures c == d - 2.0 * (mu * m) + (mu * mu) * s
  {
  }

  lemma {:induction false} CentralSumNonNegative(a: seq<real>, w: seq<real>, mu: real)
    requires |a| == |w| && forall k :: 0 <= k < |w| ==> w[k] >= 0.0
    ensures CentralSum(a, w, mu) >= 0.0
  {
    var e := CentralTerms(a, w, mu);
    forall k | 0 <= k < |e| ensures e[k] >= 0.0 {
      var d := a[k] - mu;
      assert d * d >= 0.0;
      assert e[k] == w[k] * (d * d);
    }
    SumNonNegative(e);
  }

  lemma {:induction false} Finish(c: real, e2: real, mu: real, s: real)
    requires c == e2 - 2.0 * (mu * mu) + (mu * mu) * s && s == 1.0
    ensures c == e2 - mu * mu
  {
  }

  /** For a pmf (non-negative, total mass 1) the variance the source computes
      equals the sum of w[i] * (a[i] - mean)^2, so it is non-negative. */
  lemma {:induction false} VarianceNonNegative(a: seq<real>, w: seq<real>)
    requires |a| == |w| && forall k :: 0 <= k < |w| ==> w[k] >= 0.0
    requires Sum(w) == 1.0
    ensures Dot(Squares(a), w) - Dot(a, w) * Dot(a, w) == CentralSum(a, w, Dot(a, w))
    ensures Dot(Squares(a), w) - Dot(a, w) * Dot(a, w) >= 0.0
  {
    var mu := Dot(a, w);
    CentralSumExpands(a, w, mu);
    CentralSumNonNegative(a, w, mu);
    Finish(CentralSum(a, w, mu), Dot(Squares(a), w), mu, Sum(w));
  }
}
