/** The random-variable record of ApplPy: a list of segments (`func`), a list
    of breakpoints (`support`) and a type tag (`ftype` = [kind, form]), with
    the checks the constructor makes and the support-membership test that
    every form converter applies to an evaluation point. */
module RandomVariables {
  import opened ExtReals
  import opened Seqs

  /** A kind name other than the two the constructor accepts. */
  type OtherKindName = s: string | s != "continuous" && s != "discrete" witness ""

  /** ftype[0]: any string may be passed; only two are accepted. Each
      string has one Kind: "continuous" and "discrete" are the first two. */
  datatype Kind = Continuous | Discrete | UnknownKind(name: OtherKindName)

  /** ftype[1]: the functional form carried by the segments. */
  datatype Form = Pdf | Cdf | Sf | Hf | Chf | Idf | UnknownForm(name: string)

  datatype FType = FType(kind: Kind, form: Form)

  /** An RV whose segments have type S: symbolic expressions for a
      continuous RV, real probabilities for a discrete one. */
  datatype RV<S> = RV(func: seq<S>, support: seq<ExtReal>, ftype: FType)

  /** The messages RVError is raised with, and the two Python exceptions
      of other classes that the modelled code can raise. */
  datatype RVError =
    | SupportNotList      // 'Support must be a list'
    | WrongLength         // 'Support has incorrect number of elements'
    | NotAscending        // 'Support is not in ascending order'
    | KindNotKnown        // 'Random variable must either be discrete or continuous'
    | OutOfSupport        // 'Value is not within the support of the random variable'
    | KindMismatch        // 'Both random variables must have the same type'
    | EmptySupportIndex   // IndexError: check_value reads sup[0] of an empty support
    | NoSubsOnInt         // AttributeError: .subs called on the int 0

  /** A procedure that can fall through without returning gives None. */
  datatype Option<T> = None | Some(value: T)

  datatype Result<T> = Ok(value: T) | Err(error: RVError)

  /** The `func` argument of the constructor: a bare expression or a list. */
  datatype FuncArg<S> = Bare(expr: S) | Segments(exprs: seq<S>)

  /** The `support` argument: anything that is not a list, or a list. */
  datatype SupportArg = NotAList(value: ExtReal) | Breakpoints(points: seq<ExtReal>)

  /** The optional evaluation point of a converter: the free symbol x
      (return the whole distribution) or a value. */
  datatype Query = Symbol | At(point: ExtReal)

  /** What a converter returns: a distribution, or its value at a point. */
  datatype Answer<S> = Dist(rv: RV<S>) | Value(v: S)

  /** A bare expression becomes a one-segment list. */
  function SegmentList<S>(func: FuncArg<S>): (l: seq<S>)
    ensures func.Bare? ==> l == [func.expr]
    ensures func.Segments? ==> l == func.exprs
  {
    match func
    case Bare(e) => [e]
    case Segments(es) => es
  }

  /** Continuous: one more breakpoint than segments; discrete: as many.
      For any other kind the constructor makes neither check. */
  predicate LengthRule(kind: Kind, segments: nat, breakpoints: nat) {
    match kind
    case Continuous => breakpoints - segments == 1
    case Discrete => breakpoints - segments == 0
    case UnknownKind(_) => true
  }

  /** No breakpoint is greater than the next one (equal ones are allowed). */
  predicate NonDecreasing(s: seq<ExtReal>) {
    forall i :: 0 <= i < |s| - 1 ==> Le(s[i], s[i + 1])
  }

  /** A strictly increasing list of reals is a non-decreasing support. */
  lemma {:induction false} EmbedIncreasing(keys: seq<real>)
    requires StrictlyIncreasing(keys)
    ensures NonDecreasing(Embed(keys))
  {
    var e := Embed(keys);
    forall k | 0 <= k < |e| - 1 ensures Le(e[k], e[k + 1]) {
      assert keys[k] < keys[k + 1];
    }
  }

  predicate KnownKind(k: Kind) {
    k.Continuous? || k.Discrete?
  }

  /** What every RV the constructor accepted satisfies. */
  predicate WellFormed<S>(X: RV<S>) {
    && LengthRule(X.ftype.kind, |X.func|, |X.support|)
    && NonDecreasing(X.support)
    && KnownKind(X.ftype.kind)
  }

  /** RV.__init__: wrap a bare segment, then check, in this order, that the
      support is a list, the length rule, the order of the breakpoints and
      the kind. */
  method NewRV<S>(func: FuncArg<S>, support: SupportArg, ftype: FType := FType(Continuous, Pdf)) returns (r: Result<RV<S>>)
    ensures support.NotAList? ==> r == Err(SupportNotList)
    ensures support.Breakpoints? ==>
      var X := RV(SegmentList(func), support.points, ftype);
      && (r.Ok? <==> WellFormed(X))
      && (r.Ok? ==> r.value == X)
      && (!LengthRule(ftype.kind, |X.func|, |X.support|) ==> r == Err(WrongLength))
      && (LengthRule(ftype.kind, |X.func|, |X.support|) && !NonDecreasing(X.support) ==> r == Err(NotAscending))
      && (LengthRule(ftype.kind, |X.func|, |X.support|) && NonDecreasing(X.support) && !KnownKind(ftype.kind)
          ==> r == Err(KindNotKnown))
  {
    var segs := SegmentList(func);
    if support.NotAList? {
      return Err(SupportNotList);
    }
    var s := support.points;
    if ftype.kind.Continuous? && |s| - |segs| != 1 {
      return Err(WrongLength);
    }
    if ftype.kind.Discrete? && |s| - |segs| != 0 {
      return Err(WrongLength);
    }
    var i := 0;
    while i + 1 < |s|
      invariant 0 <= i <= |s|
      invariant forall k :: 0 <= k < i && k + 1 < |s| ==> Le(s[k], s[k + 1])
    {
      if !Le(s[i], s[i + 1]) {
        return Err(NotAscending);
      }
      i := i + 1;
    }
    if !KnownKind(ftype.kind) {
      return Err(KindNotKnown);
    }
    r := Ok(RV(segs, s, ftype));
  }

  /** check_value reads sup[0] only for a point, which fails on an empty
      support. */
  predicate Indexable(q: Query, sup: seq<ExtReal>) {
    q.Symbol? || |sup| > 0
  }

  /** check_value: the free symbol always passes; a value passes unless it
      lies below the first or above the last breakpoint. */
  function CheckValue(q: Query, sup: seq<ExtReal>): bool
    requires Indexable(q, sup)
  {
    match q
    case Symbol => true
    case At(v) => !(Lt(v, sup[0]) || Lt(sup[|sup| - 1], v))
  }

  /** Adjacent order gives order between any two breakpoints. */
  lemma {:induction false} NonDecreasingSorted(s: seq<ExtReal>, i: nat, j: nat)
    requires NonDecreasing(s) && i <= j < |s|
    ensures Le(s[i], s[j])
    decreases j - i
  {
    if i == j {
      LeReflexive(s[i]);
    } else {
      NonDecreasingSorted(s, i + 1, j);
      LeTransitive(s[i], s[i + 1], s[j]);
    }
  }

  /** On an ordered partition a value passes check_value exactly when some
      segment [support[i], support[i+1]] contains it, which is the segment
      the continuous point evaluations search for. */
  lemma {:induction false} CheckValueFindsSegment(sup: seq<ExtReal>, v: ExtReal)
    requires NonDecreasing(sup) && |sup| >= 2
    ensures CheckValue(At(v), sup) <==>
      exists i :: 0 <= i < |sup| - 1 && Le(sup[i], v) && Le(v, sup[i + 1])
    decreases |sup|
  {
    var n := |sup|;
    if CheckValue(At(v), sup) {
      LeTotal(v, sup[0]);
      LeTotal(sup[n - 1], v);
      if Le(v, sup[1]) {
        assert Le(sup[0], v) && Le(v, sup[1]);
      } else {
        var t := sup[1..];
        assert Le(t[0], v) by { LeTotal(v, sup[1]); }
        if n == 2 {
          assert false;
        } else {
          assert CheckValue(At(v), t);
          CheckValueFindsSegment(t, v);
          var k :| 0 <= k < |t| - 1 && Le(t[k], v) && Le(v, t[k + 1]);
          assert Le(sup[k + 1], v) && Le(v, sup[k + 2]);
        }
      }
    } else {
      if i :| 0 <= i < n - 1 && Le(sup[i], v) && Le(v, sup[i + 1]) {
        NonDecreasingSorted(sup, 0, i);
        NonDecreasingSorted(sup, i + 1, n - 1);
        LeTransitive(sup[0], sup[i], v);
        LeTransitive(v, sup[i + 1], sup[n - 1]);
        if Lt(v, sup[0]) {
          LeAntisymmetric(v, sup[0]);
        } else {
          LeAntisymmetric(v, sup[n - 1]);
        }
      }
    }
  }

  /** Every breakpoint of an ordered support passes check_value. */
  lemma {:induction false} BreakpointsPassCheck(sup: seq<ExtReal>, i: nat)
    requires NonDecreasing(sup) && i < |sup|
    ensures CheckValue(At(sup[i]), sup)
  {
    NonDecreasingSorted(sup, 0, i);
    NonDecreasingSorted(sup, i, |sup| - 1);
    if Lt(sup[i], sup[0]) {
      LeAntisymmetric(sup[0], sup[i]);
    }
    if Lt(sup[|sup| - 1], sup[i]) {
      LeAntisymmetric(sup[i], sup[|sup| - 1]);
    }
  }
}
