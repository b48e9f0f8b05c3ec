/** Extended reals: a breakpoint of a piecewise distribution is a real
    number or one of the two infinities (sympy's -oo and oo). */
module ExtReals {

  datatype ExtReal = NegInf | Finite(r: real) | PosInf

  /** The order -oo < every real < +oo, the one sympy applies to breakpoints. */
  predicate Le(a: ExtReal, b: ExtReal) {
    match a
    case NegInf => true
    case PosInf => b == PosInf
    case Finite(x) => b == PosInf || (b.Finite? && x <= b.r)
  }

  predicate Lt(a: ExtReal, b: ExtReal) {
    Le(a, b) && a != b
  }

  /** Python's min of a two-element list: the first unless the second is smaller. */
  function Min(a: ExtReal, b: ExtReal): (m: ExtReal)
    ensures Le(m, a) && Le(m, b) && (m == a || m == b)
  {
    if Le(a, b) then a else b
  }

  /** Python's max of a two-element list. */
  function Max(a: ExtReal, b: ExtReal): (m: ExtReal)
    ensures Le(a, m) && Le(b, m) && (m == a || m == b)
  {
    if Le(a, b) then b else a
  }

  /** e + d for a real offset d: infinities absorb it. */
  function Shift(e: ExtReal, d: real): (s: ExtReal)
    ensures s.Finite? <==> e.Finite?
    ensures e.Finite? ==> s.r - e.r == d
  {
    match e
    case Finite(x) => Finite(x + d)
    case _ => e
  }

  lemma {:induction false} LeReflexive(a: ExtReal)
    ensures Le(a, a)
  {
  }

  lemma {:induction false} LeTotal(a: ExtReal, b: ExtReal)
    ensures Le(a, b) || Le(b, a)
  {
  }

  lemma {:induction false} LeAntisymmetric(a: ExtReal, b: ExtReal)
    requires Le(a, b) && Le(b, a)
    ensures a == b
  {
  }

  lemma {:induction false} LeTransitive(a: ExtReal, b: ExtReal, c: ExtReal)
    requires Le(a, b) && Le(b, c)
    ensures Le(a, c)
  {
  }

  predicate AllFinite(s: seq<ExtReal>) {
    forall i :: 0 <= i < |s| ==> s[i].Finite?
  }

  /** The real values of a list of finite breakpoints. */
  function Values(s: seq<ExtReal>): (v: seq<real>)
    requires AllFinite(s)
    ensures |v| == |s| && forall i :: 0 <= i < |s| ==> Finite(v[i]) == s[i]
  {
    seq(|s|, i requires 0 <= i < |s| => s[i].r)
  }

  /** Real numbers seen as finite breakpoints. */
  function Embed(v: seq<real>): (s: seq<ExtReal>)
    ensures |s| == |v| && AllFinite(s)
    ensures forall i :: 0 <= i < |v| ==> s[i] == Finite(v[i])
  {
    seq(|v|, i requires 0 <= i < |v| => Finite(v[i]))
  }
}
