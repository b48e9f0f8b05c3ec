/** The discrete branches of the form converters CDF, PDF, SF and IDF.
    PDF -> CDF is a running sum, CDF -> PDF takes first differences, the
    SF is the CDF list reversed and the CDF of an SF reverses it back,
    and the IDF swaps the two lists of the CDF.  The converters call one
    another exactly as the source does (CDF of an sf asks SF, PDF asks CDF,
    ...); each is proved against the specification function (CdfOf, PdfOf,
    SfOf, IdfCandidate) that gives its result. */
module DiscreteForms {
  import opened ExtReals
  import opened Seqs
  import opened RandomVariables

  /** A discrete RV in one of the forms whose conversions are modelled. */
  predicate Convertible(X: RV<real>) {
    && WellFormed(X)
    && X.ftype.kind == Discrete
    && X.ftype.form in {Pdf, Cdf, Sf}
  }

  /** The CDF of a discrete RV, by its form: kept, reversed or summed. */
  function CdfOf(X: RV<real>): RV<real>
    requires Convertible(X)
  {
    var c := match X.ftype.form
      case Cdf => X.func
      case Sf => Reverse(X.func)
      case _ => PrefixSums(X.func);
    RV(c, X.support, FType(Discrete, Cdf))
  }

  /** The PDF of a discrete RV: kept, or first differences of its CDF. */
  function PdfOf(X: RV<real>): RV<real>
    requires Convertible(X)
  {
    if X.ftype.form == Pdf then X
    else RV(Differences(CdfOf(X).func), X.support, FType(Discrete, Pdf))
  }

  /** The SF of a discrete RV: kept, or its CDF list reversed. */
  function SfOf(X: RV<real>): RV<real>
    requires Convertible(X)
  {
    if X.ftype.form == Sf then X
    else RV(Reverse(CdfOf(X).func), X.support, FType(Discrete, Sf))
  }

  /** The IDF the constructor is asked to accept: the CDF's breakpoints as
      segments and its values as breakpoints. */
  function IdfCandidate(X: RV<real>): RV<ExtReal>
    requires Convertible(X)
  {
    RV(X.support, Embed(CdfOf(X).func), FType(Discrete, Idf))
  }

  /** An RV already in IDF form, its atoms seen as breakpoint values. */
  function AsIdf(X: RV<real>): RV<ExtReal> {
    RV(Embed(X.func), X.support, X.ftype)
  }

  /** The percentile range IDF checks a point against. */
  const UnitInterval: seq<ExtReal> := [Finite(0.0), Finite(1.0)]

  datatype Conversion = ToCdf | ToPdf | ToSf

  /** How many converter calls a conversion still makes: the measure of the
      mutual recursion between CDF, PDF and SF. */
  function Depth(c: Conversion, f: Form): nat {
    match c
    case ToCdf => if f == Cdf then 0 else 1
    case ToPdf => if f == Pdf then 0 else if f == Cdf then 1 else 2
    case ToSf => if f == Sf then 0 else if f == Cdf then 1 else 2
  }

  /** The summation loop of CDF (`area += func[i]; cdffunc.append(area)`). */
  method RunningSum(f: seq<real>) returns (c: seq<real>)
    ensures c == PrefixSums(f)
  {
    c := [];
    var area := 0.0;
    for i := 0 to |f|
      invariant |c| == i && area == Sum(f[..i])
      invariant forall k :: 0 <= k < i ==> c[k] == Sum(f[..k + 1])
    {
      SumLast(f, i);
      area := area + f[i];
      c := c + [area];
    }
  }

  /** The difference loop of PDF. */
  method FirstDifferences(c: seq<real>) returns (p: seq<real>)
    ensures p == Differences(c)
  {
    p := [];
    for i := 0 to |c|
      invariant |p| == i
      invariant forall k :: 0 <= k < i ==> p[k] == if k == 0 then c[0] else c[k] - c[k - 1]
    {
      if i == 0 {
        p := p + [c[i]];
      } else {
        p := p + [c[i] - c[i - 1]];
      }
    }
  }

  /** `for i in reversed(range(len(func))): newfunc.append(func[i])` */
  method Reversed<T>(s: seq<T>) returns (r: seq<T>)
    ensures r == Reverse(s)
  {
    r := [];
    var i := |s|;
    while i > 0
      invariant 0 <= i <= |s| && |r| == |s| - i
      invariant forall k :: 0 <= k < |r| ==> r[k] == s[|s| - 1 - k]
    {
      i := i - 1;
      r := r + [s[i]];
    }
  }

  /** CDF, discrete branch. A point outside the support raises. Evaluating
      a pdf's CDF at one of its atoms reads `.func` off a list and crashes:
      that call is excluded; at any other point it returns 0. */
  method CDF(X: RV<real>, q: Query) returns (r: Result<Answer<real>>)
    requires Convertible(X)
    requires Indexable(q, X.support) && q.At? && CheckValue(q, X.support) && q.point in X.support ==> X.ftype.form != Pdf
    ensures !Indexable(q, X.support) ==> r == Err(EmptySupportIndex)
    ensures Indexable(q, X.support) && !CheckValue(q, X.support) ==> r == Err(OutOfSupport)
    ensures Indexable(q, X.support) && CheckValue(q, X.support) && q.Symbol? ==> r == Ok(Dist(CdfOf(X)))
    ensures Indexable(q, X.support) && CheckValue(q, X.support) && q.At? ==>
      r == Ok(Value(Lookup(X.support, CdfOf(X).func, q.point, 0.0)))
    decreases Depth(ToCdf, X.ftype.form)
  {
    if !Indexable(q, X.support) {
      return Err(EmptySupportIndex);
    }
    if !CheckValue(q, X.support) {
      return Err(OutOfSupport);
    }
    if X.ftype.form == Cdf {
      if q.Symbol? {
        return Ok(Dist(X));
      }
      return Ok(Value(Lookup(X.support, X.func, q.point, 0.0)));
    }
    if X.ftype.form == Sf {
      var s := SF(X, Symbol);
      var dummy := s.value.rv;
      var newfunc := Reversed(dummy.func);
      var xsf := RV(newfunc, dummy.support, FType(Discrete, Cdf));
      if q.Symbol? {
        return Ok(Dist(xsf));
      }
      return Ok(Value(Lookup(xsf.support, xsf.func, q.point, 0.0)));
    }
    var p := PDF(X, Symbol);
    var dummy := p.value.rv;
    var cdffunc := RunningSum(dummy.func);
    if q.Symbol? {
      return Ok(Dist(RV(cdffunc, dummy.support, FType(Discrete, Cdf))));
    }
    return Ok(Value(0.0));
  }

  /** PDF, discrete branch. Evaluating the PDF of a cdf or sf at one of its
      atoms reads `.func` off a list and crashes: that call is excluded; at
      any other point it returns 0. */
  method PDF(X: RV<real>, q: Query) returns (r: Result<Answer<real>>)
    requires Convertible(X)
    requires Indexable(q, X.support) && q.At? && CheckValue(q, X.support) && q.point in X.support ==> X.ftype.form == Pdf
    ensures !Indexable(q, X.support) ==> r == Err(EmptySupportIndex)
    ensures Indexable(q, X.support) && !CheckValue(q, X.support) ==> r == Err(OutOfSupport)
    ensures Indexable(q, X.support) && CheckValue(q, X.support) && q.Symbol? ==> r == Ok(Dist(PdfOf(X)))
    ensures Indexable(q, X.support) && CheckValue(q, X.support) && q.At? ==>
      r == Ok(Value(Lookup(X.support, PdfOf(X).func, q.point, 0.0)))
    decreases Depth(ToPdf, X.ftype.form)
  {
    if !Indexable(q, X.support) {
      return Err(EmptySupportIndex);
    }
    if !CheckValue(q, X.support) {
      return Err(OutOfSupport);
    }
    if X.ftype.form == Pdf {
      if q.Symbol? {
        return Ok(Dist(X));
      }
      return Ok(Value(Lookup(X.support, X.func, q.point, 0.0)));
    }
    var c := CDF(X, Symbol);
    var dummy := c.value.rv;
    var pdffunc := FirstDifferences(dummy.func);
    if q.Symbol? {
      return Ok(Dist(RV(pdffunc, dummy.support, FType(Discrete, Pdf))));
    }
    return Ok(Value(0.0));
  }

  /** SF, discrete branch for a pdf, cdf or sf. */
  method SF(X: RV<real>, q: Query) returns (r: Result<Answer<real>>)
    requires Convertible(X)
    ensures !Indexable(q, X.support) ==> r == Err(EmptySupportIndex)
    ensures Indexable(q, X.support) && !CheckValue(q, X.support) ==> r == Err(OutOfSupport)
    ensures Indexable(q, X.support) && CheckValue(q, X.support) && q.Symbol? ==> r == Ok(Dist(SfOf(X)))
    ensures Indexable(q, X.support) && CheckValue(q, X.support) && q.At? ==>
      r == Ok(Value(Lookup(X.support, SfOf(X).func, q.point, 0.0)))
    decreases Depth(ToSf, X.ftype.form)
  {
    if !Indexable(q, X.support) {
      return Err(EmptySupportIndex);
    }
    if !CheckValue(q, X.support) {
      return Err(OutOfSupport);
    }
    if X.ftype.form == Sf {
      if q.Symbol? {
        return Ok(Dist(X));
      }
      return Ok(Value(Lookup(X.support, X.func, q.point, 0.0)));
    }
    var c := CDF(X, Symbol);
    var dummy := c.value.rv;
    var newfunc := Reversed(dummy.func);
    var xsf := RV(newfunc, dummy.support, FType(Discrete, Sf));
    if q.Symbol? {
      return Ok(Dist(xsf));
    }
    return Ok(Value(Lookup(xsf.support, xsf.func, q.point, 0.0)));
  }

  /** IDF, discrete branch. The point is checked against [0, 1]. An idf is
      returned as it is; otherwise the CDF's lists are swapped and handed to
      the constructor, which raises when the CDF values decrease. A point is
      looked up in the ORIGINAL segment list, as the source does. */
  method IDF(X: RV<real>, q: Query) returns (r: Result<Answer<ExtReal>>)
    requires WellFormed(X) && X.ftype.kind == Discrete
    requires X.ftype.form in {Pdf, Cdf, Sf, Idf}
    ensures !CheckValue(q, UnitInterval) ==> r == Err(OutOfSupport)
    ensures CheckValue(q, UnitInterval) && X.ftype.form == Idf ==>
      r == if q.Symbol? then Ok(Dist(AsIdf(X)))
           else Ok(Value(Lookup(X.support, Embed(X.func), q.point, Finite(0.0))))
    ensures CheckValue(q, UnitInterval) && X.ftype.form != Idf && q.Symbol? ==>
      r == if NonDecreasing(IdfCandidate(X).support) then Ok(Dist(IdfCandidate(X)))
           else Err(NotAscending)
    ensures CheckValue(q, UnitInterval) && X.ftype.form != Idf && q.At? ==>
      r == Ok(Value(Lookup(Embed(X.func), X.support, q.point, Finite(0.0))))
  {
    if !CheckValue(q, UnitInterval) {
      return Err(OutOfSupport);
    }
    if X.ftype.form == Idf {
      if q.Symbol? {
        return Ok(Dist(AsIdf(X)));
      }
      return Ok(Value(Lookup(X.support, Embed(X.func), q.point, Finite(0.0))));
    }
    var c := CDF(X, Symbol);
    var dummy := c.value.rv;
    if q.Symbol? {
      var made := NewRV(Segments(dummy.support), Breakpoints(Embed(dummy.func)), FType(Discrete, Idf));
      match made
      case Ok(Y) => return Ok(Dist(Y));
      case Err(e) => return Err(e);
    }
    return Ok(Value(Lookup(Embed(X.func), X.support, q.point, Finite(0.0))));
  }

  /** Every conversion returns what the constructor accepts. */
  lemma {:induction false} ConversionsWellFormed(X: RV<real>)
    requires Convertible(X)
    ensures Convertible(CdfOf(X)) && Convertible(PdfOf(X)) && Convertible(SfOf(X))
    ensures CdfOf(X).support == PdfOf(X).support == SfOf(X).support == X.support
  {
  }

  lemma {:induction false} DifferencesOfPrefixSums(f: seq<real>)
    ensures Differences(PrefixSums(f)) == f
  {
    var c := PrefixSums(f);
    forall i | 0 <= i < |f| ensures Differences(c)[i] == f[i] {
      SumLast(f, i);
    }
  }

  lemma {:induction false} PrefixSumAtTelescopes(c: seq<real>, i: nat)
    requires i < |c|
    ensures Sum(Differences(c)[..i + 1]) == c[i]
  {
    var d := Differences(c);
    SumLast(d, i);
    if i > 0 {
      PrefixSumAtTelescopes(c, i - 1);
    }
  }

  lemma {:induction false} PrefixSumsOfDifferences(c: seq<real>)
    ensures PrefixSums(Differences(c)) == c
  {
    forall i | 0 <= i < |c| ensures PrefixSums(Differences(c))[i] == c[i] {
      PrefixSumAtTelescopes(c, i);
    }
  }

  lemma {:induction false} ReverseReverse<T>(s: seq<T>)
    ensures Reverse(Reverse(s)) == s
  {
  }

  /** Taking the PDF twice is taking it once; it keeps the support. */
  lemma {:induction false} PdfOfIdempotent(X: RV<real>)
    requires Convertible(X)
    ensures Convertible(PdfOf(X)) && PdfOf(PdfOf(X)) == PdfOf(X) && PdfOf(X).support == X.support
  {
    ConversionsWellFormed(X);
  }

  /** PDF(CDF(X)) == X for a discrete pdf: differences undo running sums. */
  lemma {:induction false} PdfOfCdfIsIdentity(X: RV<real>)
    requires Convertible(X) && X.ftype.form == Pdf
    ensures Convertible(CdfOf(X)) && PdfOf(CdfOf(X)) == X
  {
    DifferencesOfPrefixSums(X.func);
  }

  /** CDF(PDF(X)) == X for a discrete cdf: running sums undo differences. */
  lemma {:induction false} CdfOfPdfIsIdentity(X: RV<real>)
    requires Convertible(X) && X.ftype.form == Cdf
    ensures Convertible(PdfOf(X)) && CdfOf(PdfOf(X)) == X
  {
    PrefixSumsOfDifferences(X.func);
  }

  /** CDF(SF(X)) == CDF(X) and SF(CDF(X)) == SF(X): the two reversals cancel,
      whatever form X is in. */
  lemma {:induction false} SfCdfRoundTrip(X: RV<real>)
    requires Convertible(X)
    ensures Convertible(SfOf(X)) && CdfOf(SfOf(X)) == CdfOf(X)
    ensures Convertible(CdfOf(X)) && SfOf(CdfOf(X)) == SfOf(X)
  {
    ReverseReverse(X.func);
    ReverseReverse(CdfOf(X).func);
  }

  /** The last CDF value of a discrete pdf is its total mass. */
  lemma {:induction false} CdfEndsAtTotalMass(X: RV<real>)
    requires Convertible(X) && X.ftype.form == Pdf && |X.func| > 0
    ensures CdfOf(X).func[|X.func| - 1] == Sum(X.func)
  {
    assert X.func[..|X.func|] == X.func;
  }

  /** The CDF of a pdf with non-negative probabilities never decreases. */
  lemma {:induction false} CdfMonotone(X: RV<real>, i: nat, j: nat)
    requires Convertible(X) && X.ftype.form == Pdf
    requires forall k :: 0 <= k < |X.func| ==> X.func[k] >= 0.0
    requires i <= j < |X.func|
    ensures CdfOf(X).func[i] <= CdfOf(X).func[j]
    decreases j - i
  {
    if i < j {
      CdfMonotone(X, i, j - 1);
      SumLast(X.func, j);
    }
  }

  /** IDF of a pdf with non-negative probabilities is accepted by the
      constructor: the CDF values it uses as breakpoints do not decrease. */
  lemma {:induction false} IdfOfNonNegativePdfIsAccepted(X: RV<real>)
    requires Convertible(X) && X.ftype.form == Pdf
    requires forall k :: 0 <= k < |X.func| ==> X.func[k] >= 0.0
    ensures NonDecreasing(IdfCandidate(X).support)
  {
    var s := IdfCandidate(X).support;
    forall i | 0 <= i < |s| - 1 ensures Le(s[i], s[i + 1]) {
      CdfMonotone(X, i, i + 1);
    }
  }
}
