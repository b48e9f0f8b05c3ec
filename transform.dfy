/** Transform of a continuous RV by a piecewise transformation gX, a list
    of piece functions and a list of breakpoints: the bookkeeping that
    surrounds the symbolic work. The piece functions are of an abstract
    type G, evaluated at a breakpoint by `eval`; the density term of
    support segment i under piece j (f_i(g_j^-1(t)) * d/dt g_j^-1(t)) is
    an abstract real `tran(i, j)`. */
module Transforms {
  import opened ExtReals
  import opened Seqs
  import opened Sorting
  import opened RandomVariables
  import opened TestPoints

  /** Every breakpoint is at most every later one. */
  lemma {:induction false} NonDecreasingLe(s: seq<ExtReal>, a: nat, b: nat)
    requires NonDecreasing(s) && a <= b < |s|
    ensures Le(s[a], s[b])
    decreases b - a
  {
    if a < b {
      NonDecreasingLe(s, a + 1, b);
      LeTransitive(s[a], s[a + 1], s[b]);
    }
  }

  // ---------------------------------------------------------------------
  // Clamping the breakpoints of the transformation into the support.

  /** `if v < lo: v = lo`, then `if v > hi: v = hi`. */
  function Clamp(v: ExtReal, lo: ExtReal, hi: ExtReal): ExtReal {
    var w := if Lt(v, lo) then lo else v;
    if Lt(hi, w) then hi else w
  }

  function ClampAll(s: seq<ExtReal>, lo: ExtReal, hi: ExtReal): (c: seq<ExtReal>)
    ensures |c| == |s|
  {
    seq(|s|, i requires 0 <= i < |s| => Clamp(s[i], lo, hi))
  }

  /** A clamped point lies in [lo, hi], and a point already there is kept. */
  lemma {:induction false} ClampWithin(v: ExtReal, lo: ExtReal, hi: ExtReal)
    requires Le(lo, hi)
    ensures Le(lo, Clamp(v, lo, hi)) && Le(Clamp(v, lo, hi), hi)
    ensures Le(lo, v) && Le(v, hi) <==> Clamp(v, lo, hi) == v
  {
    LeTotal(v, lo);
    LeTotal(v, hi);
  }

  lemma {:induction false} ClampMonotone(u: ExtReal, v: ExtReal, lo: ExtReal, hi: ExtReal)
    requires Le(lo, hi) && Le(u, v)
    ensures Le(Clamp(u, lo, hi), Clamp(v, lo, hi))
  {
    LeTotal(u, lo);
    LeTotal(v, hi);
  }

  /** After clamping every breakpoint lies in [lo, hi]; clamping is
      idempotent and keeps the breakpoints in order. */
  lemma {:induction false} ClampAllProperties(s: seq<ExtReal>, lo: ExtReal, hi: ExtReal)
    requires Le(lo, hi)
    ensures forall i :: 0 <= i < |s| ==> Le(lo, ClampAll(s, lo, hi)[i]) && Le(ClampAll(s, lo, hi)[i], hi)
    ensures ClampAll(ClampAll(s, lo, hi), lo, hi) == ClampAll(s, lo, hi)
    ensures NonDecreasing(s) ==> NonDecreasing(ClampAll(s, lo, hi))
  {
    var c := ClampAll(s, lo, hi);
    forall i | 0 <= i < |s| ensures Le(lo, c[i]) && Le(c[i], hi) && Clamp(c[i], lo, hi) == c[i] {
      ClampWithin(s[i], lo, hi);
      ClampWithin(c[i], lo, hi);
    }
    if NonDecreasing(s) {
      forall i | 0 <= i < |c| - 1 ensures Le(c[i], c[i + 1]) {
        ClampMonotone(s[i], s[i + 1], lo, hi);
      }
    }
  }

  /** The loop that overwrites gX[1][i] in place. */
  method ClampToSupport(bp: array<ExtReal>, lo: ExtReal, hi: ExtReal)
    modifies bp
    ensures bp[..] == ClampAll(old(bp[..]), lo, hi)
  {
    for i := 0 to bp.Length
      invariant forall k :: 0 <= k < i ==> bp[k] == Clamp(old(bp[k]), lo, hi)
      invariant forall k :: i <= k < bp.Length ==> bp[k] == old(bp[k])
    {
      if Lt(bp[i], lo) {
        bp[i] := lo;
      }
      if Lt(hi, bp[i]) {
        bp[i] := hi;
      }
    }
  }

  // ---------------------------------------------------------------------
  // Dropping the pieces of zero width.

  /** A piecewise transformation: piece j is funcs[j] on [bps[j], bps[j+1]]. */
  datatype Pieces<G> = Pieces(funcs: seq<G>, bps: seq<ExtReal>)

  /** The pieces among the first i that are kept: those of non-zero width,
      each with its right breakpoint. */
  function DropUpTo<G>(funcs: seq<G>, bp: seq<ExtReal>, i: nat): (p: Pieces<G>)
    requires |bp| == |funcs| + 1 && i <= |funcs|
    ensures |p.bps| == |p.funcs| + 1 && p.bps[0] == bp[0] && p.bps[|p.bps| - 1] == bp[i]
    decreases i
  {
    if i == 0 then Pieces([], [bp[0]])
    else
      var p := DropUpTo(funcs, bp, i - 1);
      if bp[i - 1] == bp[i] then p else Pieces(p.funcs + [funcs[i - 1]], p.bps + [bp[i]])
  }

  /** The indices of the pieces of non-zero width among the first i. */
  function NonDegenerate(bp: seq<ExtReal>, i: nat): (K: seq<nat>)
    requires i < |bp|
    decreases i
  {
    if i == 0 then []
    else NonDegenerate(bp, i - 1) + (if bp[i - 1] != bp[i] then [i - 1] else [])
  }

  lemma {:induction false} NonDegenerateMembers(bp: seq<ExtReal>, i: nat)
    requires i < |bp|
    ensures forall j: nat :: j in NonDegenerate(bp, i) <==> j < i && bp[j] != bp[j + 1]
    ensures forall k :: 0 <= k < |NonDegenerate(bp, i)| ==> NonDegenerate(bp, i)[k] < i
    decreases i
  {
    if i > 0 {
      NonDegenerateMembers(bp, i - 1);
      var K0 := NonDegenerate(bp, i - 1);
      var K := NonDegenerate(bp, i);
      assert K == K0 + (if bp[i - 1] != bp[i] then [i - 1] else []);
      forall j: nat ensures j in K <==> j < i && bp[j] != bp[j + 1] {
        assert j in K <==> j in K0 || (j == i - 1 && bp[i - 1] != bp[i]);
      }
    } else {
      assert NonDegenerate(bp, 0) == [];
    }
  }

  /** Kept piece k is original piece K[k], with the same function and ends. */
  ghost predicate Selects<G>(p: Pieces<G>, K: seq<nat>, funcs: seq<G>, bp: seq<ExtReal>)
    requires |bp| == |funcs| + 1 && |p.bps| == |p.funcs| + 1
  {
    && |p.funcs| == |K|
    && forall k :: 0 <= k < |K| ==>
         (K[k] < |funcs| && p.funcs[k] == funcs[K[k]] && p.bps[k] == bp[K[k]] && p.bps[k + 1] == bp[K[k] + 1])
  }

  lemma {:induction false} DropSelects<G>(funcs: seq<G>, bp: seq<ExtReal>, i: nat)
    requires |bp| == |funcs| + 1 && i <= |funcs|
    ensures Selects(DropUpTo(funcs, bp, i), NonDegenerate(bp, i), funcs, bp)
    decreases i
  {
    if i > 0 {
      DropSelects(funcs, bp, i - 1);
      NonDegenerateMembers(bp, i - 1);
      var p0, K0 := DropUpTo(funcs, bp, i - 1), NonDegenerate(bp, i - 1);
      if bp[i - 1] != bp[i] {
        var p, K := Pieces(p0.funcs + [funcs[i - 1]], p0.bps + [bp[i]]), K0 + [i - 1];
        assert DropUpTo(funcs, bp, i) == p;
        assert NonDegenerate(bp, i) == K;
        forall k | 0 <= k < |K|
          ensures K[k] < |funcs| && p.funcs[k] == funcs[K[k]] && p.bps[k] == bp[K[k]] && p.bps[k + 1] == bp[K[k] + 1]
        {
          if k < |K0| {
            assert K[k] == K0[k] && p.funcs[k] == p0.funcs[k] && p.bps[k] == p0.bps[k] && p.bps[k + 1] == p0.bps[k + 1];
          } else {
            assert K[k] == i - 1 && p.funcs[k] == funcs[i - 1] && p.bps[k] == p0.bps[|p0.bps| - 1] == bp[i - 1];
          }
        }
      } else {
        assert DropUpTo(funcs, bp, i) == p0;
        assert NonDegenerate(bp, i) == K0;
      }
    }
  }

  /** On ordered breakpoints the kept pieces all have positive width. */
  lemma {:induction false} DropAscending<G>(funcs: seq<G>, bp: seq<ExtReal>, i: nat)
    requires |bp| == |funcs| + 1 && i <= |funcs| && NonDecreasing(bp)
    ensures Ascending(DropUpTo(funcs, bp, i).bps)
    decreases i
  {
    if i > 0 {
      DropAscending(funcs, bp, i - 1);
      var p0 := DropUpTo(funcs, bp, i - 1);
      if bp[i - 1] != bp[i] {
        var b := p0.bps + [bp[i]];
        assert DropUpTo(funcs, bp, i).bps == b;
        forall k | 0 <= k < |b| - 1 ensures Lt(b[k], b[k + 1]) {
          if k < |p0.bps| - 1 {
            assert b[k] == p0.bps[k] && b[k + 1] == p0.bps[k + 1];
          } else {
            assert b[k] == bp[i - 1] && b[k + 1] == bp[i];
          }
        }
      }
    }
  }

  /** Every breakpoint is below the next one: no piece has zero width. */
  predicate Ascending(s: seq<ExtReal>) {
    forall k :: 0 <= k < |s| - 1 ==> Lt(s[k], s[k + 1])
  }

  /** gX[0].remove / gX[1].remove, done as intended: on new lists. */
  method DropDegenerate<G>(funcs: seq<G>, bp: seq<ExtReal>) returns (fs: seq<G>, bs: seq<ExtReal>)
    requires |bp| == |funcs| + 1
    ensures Pieces(fs, bs) == DropUpTo(funcs, bp, |funcs|)
  {
    fs, bs := [], [bp[0]];
    for i := 0 to |funcs|
      invariant Pieces(fs, bs) == DropUpTo(funcs, bp, i)
    {
      if bp[i] != bp[i + 1] {
        fs, bs := fs + [funcs[i]], bs + [bp[i + 1]];
      }
    }
  }

  // ---------------------------------------------------------------------
  // The images of the piece ends and the support of the result.

  /** [g_i(b_i), g_i(b_{i+1})]: a piece's images at its two ends. */
  type Mapping = (ExtReal, ExtReal)

  /** The mapping list of the kept pieces. */
  method Mappings<G>(fs: seq<G>, bs: seq<ExtReal>, eval: (G, ExtReal) -> ExtReal) returns (mapping: seq<Mapping>)
    requires |bs| == |fs| + 1
    ensures |mapping| == |fs|
    ensures forall i :: 0 <= i < |fs| ==> mapping[i] == (eval(fs[i], bs[i]), eval(fs[i], bs[i + 1]))
  {
    mapping := [];
    for i := 0 to |fs|
      invariant |mapping| == i
      invariant forall k :: 0 <= k < i ==> mapping[k] == (eval(fs[k], bs[k]), eval(fs[k], bs[k + 1]))
    {
      mapping := mapping + [(eval(fs[i], bs[i]), eval(fs[i], bs[i + 1]))];
    }
  }

  /** Both ends of every mapping, in order. */
  function Endpoints(m: seq<Mapping>): (e: seq<ExtReal>)
    ensures |e| == 2 * |m|
    decreases |m|
  {
    if m == [] then [] else Endpoints(m[..|m| - 1]) + [m[|m| - 1].0, m[|m| - 1].1]
  }

  lemma {:induction false} EndpointsMembers(m: seq<Mapping>)
    ensures forall y :: y in Endpoints(m) <==> exists i :: 0 <= i < |m| && (y == m[i].0 || y == m[i].1)
    decreases |m|
  {
    if m != [] {
      var n := |m| - 1;
      EndpointsMembers(m[..n]);
      forall y ensures y in Endpoints(m) <==> exists i :: 0 <= i < |m| && (y == m[i].0 || y == m[i].1) {
        if y in Endpoints(m[..n]) {
          var i :| 0 <= i < n && (y == m[..n][i].0 || y == m[..n][i].1);
          assert m[..n][i] == m[i];
        }
        if exists i :: 0 <= i < |m| && (y == m[i].0 || y == m[i].1) {
          var i :| 0 <= i < |m| && (y == m[i].0 || y == m[i].1);
          if i < n {
            assert m[..n][i] == m[i];
          }
        }
      }
    }
  }

  /** `if y not in s: s.append(y)`. */
  function AddNew(s: seq<ExtReal>, y: ExtReal): seq<ExtReal> {
    if y in s then s else s + [y]
  }

  /** The values of s, each once, in the order they first appear. */
  function FirstOccurrences(s: seq<ExtReal>): (d: seq<ExtReal>)
    ensures NoDup(d) && forall y :: y in d <==> y in s
    decreases |s|
  {
    if s == [] then []
    else
      assert s == s[..|s| - 1] + [s[|s| - 1]];
      AddNew(FirstOccurrences(s[..|s| - 1]), s[|s| - 1])
  }

  lemma {:induction false} FirstOccurrencesStep(m: seq<Mapping>, i: nat)
    requires i < |m|
    ensures FirstOccurrences(Endpoints(m[..i + 1]))
         == AddNew(AddNew(FirstOccurrences(Endpoints(m[..i])), m[i].0), m[i].1)
  {
    EndpointsStep(m, i);
    FirstOccurrencesLast(Endpoints(m[..i]) + [m[i].0], m[i].1);
    FirstOccurrencesLast(Endpoints(m[..i]), m[i].0);
    assert Endpoints(m[..i]) + [m[i].0, m[i].1] == Endpoints(m[..i]) + [m[i].0] + [m[i].1];
  }

  lemma {:induction false} EndpointsStep(m: seq<Mapping>, i: nat)
    requires i < |m|
    ensures Endpoints(m[..i + 1]) == Endpoints(m[..i]) + [m[i].0, m[i].1]
  {
    assert m[..i + 1][..i] == m[..i];
  }

  lemma {:induction false} FirstOccurrencesLast(s: seq<ExtReal>, y: ExtReal)
    ensures FirstOccurrences(s + [y]) == AddNew(FirstOccurrences(s), y)
  {
    assert (s + [y])[..|s|] == s;
  }

  /** trans_supp: the images, each once, sorted. */
  function SupportOf(m: seq<Mapping>): seq<ExtReal> {
    Sort(Le, FirstOccurrences(Endpoints(m)))
  }

  predicate StrictlyAscending(s: seq<ExtReal>) {
    forall i, j :: 0 <= i < j < |s| ==> Lt(s[i], s[j])
  }

  lemma {:induction false} LeIsTotalPreorder()
    ensures TotalPreorder(Le)
  {
    forall a: ExtReal, b: ExtReal ensures Le(a, b) || Le(b, a) {
      LeTotal(a, b);
    }
    forall a: ExtReal, b: ExtReal, c: ExtReal | Le(a, b) && Le(b, c) ensures Le(a, c) {
      LeTransitive(a, b, c);
    }
  }

  /** y is the image of an end of some piece. */
  predicate IsEndImage(m: seq<Mapping>, y: ExtReal) {
    exists i :: 0 <= i < |m| && (y == m[i].0 || y == m[i].1)
  }

  /** The support of the result is strictly ascending (sorted, without
      duplicates) and holds exactly the images of the piece ends. */
  lemma {:induction false} SupportOfMapping(m: seq<Mapping>)
    ensures StrictlyAscending(SupportOf(m))
    ensures forall y :: y in SupportOf(m) <==> IsEndImage(m, y)
  {
    var d := FirstOccurrences(Endpoints(m));
    var ts := SupportOf(m);
    LeIsTotalPreorder();
    SortSorted(Le, d);
    SortNoDup(Le, d);
    EndpointsMembers(m);
    forall y ensures y in ts <==> y in d {
      assert y in ts <==> y in multiset(ts);
      assert y in d <==> y in multiset(d);
    }
  }

  /** A strictly ascending list is in order, for RV's constructor. */
  lemma {:induction false} StrictlyAscendingNonDecreasing(s: seq<ExtReal>)
    requires StrictlyAscending(s)
    ensures NonDecreasing(s) && Ascending(s)
  {
  }

  /** The loop building trans_supp, then trans_supp.sort(). */
  method TransSupport(mapping: seq<Mapping>) returns (ts: seq<ExtReal>)
    ensures ts == SupportOf(mapping)
  {
    ts := [];
    for i := 0 to |mapping|
      invariant ts == FirstOccurrences(Endpoints(mapping[..i]))
    {
      FirstOccurrencesStep(mapping, i);
      if mapping[i].0 !in ts {
        ts := ts + [mapping[i].0];
      }
      if mapping[i].1 !in ts {
        ts := ts + [mapping[i].1];
      }
    }
    assert mapping[..|mapping|] == mapping;
    ts := Sort(Le, ts);
  }

  // ---------------------------------------------------------------------
  // Which output pieces each transformation piece covers.

  /** The number of pieces of the result: len(trans_supp) - 1, or none. */
  function Gaps(ts: seq<ExtReal>): nat {
    if ts == [] then 0 else |ts| - 1
  }

  /** Output piece j, [ts[j], ts[j+1]], lies within the images of a piece. */
  predicate Covers(m: Mapping, ts: seq<ExtReal>, j: nat) {
    j + 1 < |ts| && Le(Min(m.0, m.1), ts[j]) && Le(ts[j + 1], Max(m.0, m.1))
  }

  function CoveredUpTo(m: Mapping, ts: seq<ExtReal>, k: nat): seq<nat>
    requires k <= Gaps(ts)
    decreases k
  {
    if k == 0 then [] else CoveredUpTo(m, ts, k - 1) + (if Covers(m, ts, k - 1) then [k - 1] else [])
  }

  /** applist[i] for a piece with mapping m. */
  function Covered(m: Mapping, ts: seq<ExtReal>): seq<nat> {
    CoveredUpTo(m, ts, Gaps(ts))
  }

  lemma {:induction false} CoveredMembers(m: Mapping, ts: seq<ExtReal>, k: nat)
    requires k <= Gaps(ts)
    ensures forall j: nat :: j in CoveredUpTo(m, ts, k) <==> j < k && Covers(m, ts, j)
    decreases k
  {
    if k > 0 {
      CoveredMembers(m, ts, k - 1);
      var C := CoveredUpTo(m, ts, k);
      assert C == CoveredUpTo(m, ts, k - 1) + (if Covers(m, ts, k - 1) then [k - 1] else []);
      forall j: nat ensures j in C <==> j < k && Covers(m, ts, j) {
        assert j in C <==> j in CoveredUpTo(m, ts, k - 1) || (j == k - 1 && Covers(m, ts, k - 1));
      }
    } else {
      assert CoveredUpTo(m, ts, 0) == [];
    }
  }

  lemma {:induction false} AscendingIndexOrder(ts: seq<ExtReal>, a: nat, b: nat)
    requires StrictlyAscending(ts) && a < |ts| && b < |ts|
    ensures Le(ts[a], ts[b]) <==> a <= b
  {
    if b < a {
      if Le(ts[a], ts[b]) {
        LeAntisymmetric(ts[a], ts[b]);
        assert false;
      }
    } else if a == b {
      LeReflexive(ts[a]);
    }
  }

  /** A piece whose two images are breakpoints of the result covers exactly
      the output pieces between them. */
  lemma {:induction false} CoverageRange(m: Mapping, ts: seq<ExtReal>)
    requires StrictlyAscending(ts) && m.0 in ts && m.1 in ts
    ensures forall j: nat :: j in Covered(m, ts) <==>
      IndexOf(ts, Min(m.0, m.1)) <= j < IndexOf(ts, Max(m.0, m.1))
  {
    CoveredMembers(m, ts, Gaps(ts));
    forall j: nat ensures Covers(m, ts, j) <==> IndexOf(ts, Min(m.0, m.1)) <= j < IndexOf(ts, Max(m.0, m.1)) {
      CoversAt(m, ts, j, IndexOf(ts, Min(m.0, m.1)), IndexOf(ts, Max(m.0, m.1)));
    }
  }

  lemma {:induction false} CoversAt(m: Mapping, ts: seq<ExtReal>, j: nat, lo: nat, hi: nat)
    requires StrictlyAscending(ts) && lo < |ts| && hi < |ts|
    requires ts[lo] == Min(m.0, m.1) && ts[hi] == Max(m.0, m.1)
    ensures Covers(m, ts, j) <==> lo <= j < hi
  {
    if j + 1 < |ts| {
      AscendingIndexOrder(ts, lo, j);
      AscendingIndexOrder(ts, j + 1, hi);
    }
  }

  /** The nested loop building applist. */
  method Coverage(mapping: seq<Mapping>, ts: seq<ExtReal>) returns (applist: seq<seq<nat>>)
    ensures |applist| == |mapping|
    ensures forall i :: 0 <= i < |mapping| ==> applist[i] == Covered(mapping[i], ts)
  {
    applist := [];
    for i := 0 to |mapping|
      invariant |applist| == i
      invariant forall k :: 0 <= k < i ==> applist[k] == Covered(mapping[k], ts)
    {
      var temp: seq<nat> := [];
      for j := 0 to Gaps(ts)
        invariant temp == CoveredUpTo(mapping[i], ts, j)
      {
        if Le(Min(mapping[i].0, mapping[i].1), ts[j]) {
          if Le(ts[j + 1], Max(mapping[i].0, mapping[i].1)) {
            temp := temp + [j];
          }
        }
      }
      applist := applist + [temp];
    }
  }

  // ---------------------------------------------------------------------
  // The density terms, one per (support segment, piece) that fits.

  /** Piece j, [bs[j], bs[j+1]], lies within support segment i. */
  predicate Fits(support: seq<ExtReal>, bs: seq<ExtReal>, i: nat, j: nat)
    requires i + 1 < |support| && j + 1 < |bs|
  {
    Le(support[i], bs[j]) && Le(bs[j + 1], support[i + 1])
  }

  /** (support segment, piece) of one term of seg_func. */
  type Owner = (nat, nat)

  /** The terms the inner loop adds for segment i over the first k pieces. */
  function RowUpTo(support: seq<ExtReal>, bs: seq<ExtReal>, i: nat, k: nat): (o: seq<Owner>)
    requires i + 1 < |support| && k < |bs|
    decreases k
  {
    if k == 0 then []
    else RowUpTo(support, bs, i, k - 1) + (if Fits(support, bs, i, k - 1) then [(i, k - 1)] else [])
  }

  /** The terms of the first i segments. */
  function OwnersUpTo(support: seq<ExtReal>, bs: seq<ExtReal>, i: nat): (o: seq<Owner>)
    requires i < |support| && |bs| > 0
    decreases i
  {
    if i == 0 then [] else OwnersUpTo(support, bs, i - 1) + RowUpTo(support, bs, i - 1, |bs| - 1)
  }

  function Owners(support: seq<ExtReal>, bs: seq<ExtReal>): seq<Owner>
    requires |support| > 0 && |bs| > 0
  {
    OwnersUpTo(support, bs, |support| - 1)
  }

  /** seg_func: the density term of each owner. */
  function Terms(o: seq<Owner>, tran: (nat, nat) -> real): (t: seq<real>)
    ensures |t| == |o|
  {
    seq(|o|, k requires 0 <= k < |o| => tran(o[k].0, o[k].1))
  }

  /** Every term of the first i segments is a (segment, piece) that fits. */
  lemma {:induction false} OwnersFit(support: seq<ExtReal>, bs: seq<ExtReal>, i: nat)
    requires i < |support| && |bs| > 0
    ensures forall q :: 0 <= q < |OwnersUpTo(support, bs, i)| ==>
      (OwnersUpTo(support, bs, i)[q].0 < i && OwnersUpTo(support, bs, i)[q].1 + 1 < |bs| &&
       Fits(support, bs, OwnersUpTo(support, bs, i)[q].0, OwnersUpTo(support, bs, i)[q].1))
    decreases i
  {
    if i > 0 {
      OwnersFit(support, bs, i - 1);
      OwnersUnfold(support, bs, i);
      RowFits(support, bs, i - 1, |bs| - 1);
    }
  }

  /** Every term of row i over the first k pieces is (i, j) for a piece
      j < k that fits segment i. */
  lemma {:induction false} RowFits(support: seq<ExtReal>, bs: seq<ExtReal>, i: nat, k: nat)
    requires i + 1 < |support| && k < |bs|
    ensures forall q :: 0 <= q < |RowUpTo(support, bs, i, k)| ==>
      (RowUpTo(support, bs, i, k)[q].0 == i && RowUpTo(support, bs, i, k)[q].1 < k &&
       Fits(support, bs, i, RowUpTo(support, bs, i, k)[q].1))
    decreases k
  {
    if k > 0 {
      RowFits(support, bs, i, k - 1);
    }
  }

  lemma {:induction false} RowComplete(support: seq<ExtReal>, bs: seq<ExtReal>, i: nat, k: nat, j: nat)
    requires i + 1 < |support| && k < |bs| && j < k && Fits(support, bs, i, j)
    ensures (i, j) in RowUpTo(support, bs, i, k)
    decreases k
  {
    if j < k - 1 {
      RowComplete(support, bs, i, k - 1, j);
    }
  }

  /** Every (segment, piece) that fits has its term. */
  lemma {:induction false} OwnersComplete(support: seq<ExtReal>, bs: seq<ExtReal>, i: nat, a: nat, b: nat)
    requires i < |support| && a < i && b + 1 < |bs| && Fits(support, bs, a, b)
    ensures (a, b) in OwnersUpTo(support, bs, i)
  {
    RowComplete(support, bs, a, |bs| - 1, b);
    RowInOwners(support, bs, i, a, (a, b));
  }

  /** The terms of an earlier segment stay among the terms. */
  lemma {:induction false} RowInOwners(support: seq<ExtReal>, bs: seq<ExtReal>, i: nat, a: nat, x: Owner)
    requires i < |support| && a < i && |bs| > 0 && x in RowUpTo(support, bs, a, |bs| - 1)
    ensures x in OwnersUpTo(support, bs, i)
  {
    RowPrefix(support, bs, a, i);
    InPrefix(x, OwnersUpTo(support, bs, a), RowUpTo(support, bs, a, |bs| - 1), OwnersUpTo(support, bs, i));
  }

  /** The terms up to and including segment a open the terms of the first i. */
  lemma {:induction false} RowPrefix(support: seq<ExtReal>, bs: seq<ExtReal>, a: nat, i: nat)
    requires a < i < |support| && |bs| > 0
    ensures OwnersUpTo(support, bs, a) + RowUpTo(support, bs, a, |bs| - 1) <= OwnersUpTo(support, bs, i)
  {
    OwnersUnfold(support, bs, a + 1);
    OwnersPrefix(support, bs, a + 1, i);
  }

  /** The terms of the first j segments open the terms of the first i. */
  lemma {:induction false} OwnersPrefix(support: seq<ExtReal>, bs: seq<ExtReal>, j: nat, i: nat)
    requires j <= i < |support| && |bs| > 0
    ensures OwnersUpTo(support, bs, j) <= OwnersUpTo(support, bs, i)
    decreases i
  {
    if j < i {
      OwnersPrefix(support, bs, j, i - 1);
      OwnersUnfold(support, bs, i);
    }
  }

  /** An element of the second part of h + s is in every list h + s opens. */
  lemma {:induction false} InPrefix<T>(x: T, h: seq<T>, s: seq<T>, t: seq<T>)
    requires x in s && h + s <= t
    ensures x in t
  {
    var k :| 0 <= k < |s| && s[k] == x;
    assert (h + s)[|h| + k] == x;
    assert t[|h| + k] == x;
  }

  /** The piece indices of a list of owners rise strictly. */
  predicate PieceOrder(o: seq<Owner>) {
    forall p, q :: 0 <= p < q < |o| ==> o[p].1 < o[q].1
  }

  lemma {:induction false} RowOrder(support: seq<ExtReal>, bs: seq<ExtReal>, i: nat, k: nat)
    requires i + 1 < |support| && k < |bs|
    ensures PieceOrder(RowUpTo(support, bs, i, k))
    decreases k
  {
    if k > 0 {
      RowOrder(support, bs, i, k - 1);
      RowFits(support, bs, i, k - 1);
    }
  }

  /** Every piece index of a is below every piece index of b. */
  predicate AllBefore(a: seq<Owner>, b: seq<Owner>) {
    forall p, q :: 0 <= p < |a| && 0 <= q < |b| ==> a[p].1 < b[q].1
  }

  lemma {:induction false} PieceOrderConcat(a: seq<Owner>, b: seq<Owner>)
    requires PieceOrder(a) && PieceOrder(b)
    requires AllBefore(a, b)
    ensures PieceOrder(a + b)
  {
  }

  /** A piece of positive width that fits segment i and a piece that fits a
      later segment come in that order. */
  lemma {:induction false} CrossRowOrder(support: seq<ExtReal>, bs: seq<ExtReal>, i: nat, i2: nat, j: nat, j2: nat)
    requires NonDecreasing(support) && StrictlyAscending(bs)
    requires i < i2 && i2 + 1 < |support| && j + 1 < |bs| && j2 + 1 < |bs|
    requires Fits(support, bs, i, j) && Fits(support, bs, i2, j2)
    ensures j < j2
  {
    if j2 <= j {
      NonDecreasingLe(support, i + 1, i2);
      LeTransitive(bs[j + 1], support[i + 1], support[i2]);
      LeTransitive(bs[j + 1], support[i2], bs[j2]);
      if j2 < j {
        LeTransitive(bs[j + 1], bs[j2], bs[j]);
      }
      assert Lt(bs[j], bs[j + 1]);
      LeAntisymmetric(bs[j], bs[j + 1]);
      assert false;
    }
  }

  /** On ordered support and pieces of positive width, the terms come in
      rising piece order, so no piece has two. */
  lemma {:induction false} OwnersOrder(support: seq<ExtReal>, bs: seq<ExtReal>, i: nat)
    requires i < |support| && |bs| > 0 && NonDecreasing(support) && StrictlyAscending(bs)
    ensures PieceOrder(OwnersUpTo(support, bs, i))
    decreases i
  {
    if i > 0 {
      OwnersOrder(support, bs, i - 1);
      RowsInOrder(support, bs, i - 1);
      OwnersOrderStep(support, bs, i);
    }
  }

  lemma {:induction false} OwnersOrderStep(support: seq<ExtReal>, bs: seq<ExtReal>, i: nat)
    requires 0 < i < |support| && |bs| > 0
    requires PieceOrder(OwnersUpTo(support, bs, i - 1))
    requires AllBefore(OwnersUpTo(support, bs, i - 1), RowUpTo(support, bs, i - 1, |bs| - 1))
    ensures PieceOrder(OwnersUpTo(support, bs, i))
  {
    OwnersUnfold(support, bs, i);
    RowOrder(support, bs, i - 1, |bs| - 1);
    PieceOrderConcat(OwnersUpTo(support, bs, i - 1), RowUpTo(support, bs, i - 1, |bs| - 1));
  }

  lemma {:induction false} OwnersUnfold(support: seq<ExtReal>, bs: seq<ExtReal>, i: nat)
    requires 0 < i < |support| && |bs| > 0
    ensures OwnersUpTo(support, bs, i) == OwnersUpTo(support, bs, i - 1) + RowUpTo(support, bs, i - 1, |bs| - 1)
  {
  }

  lemma {:induction false} RowsInOrder(support: seq<ExtReal>, bs: seq<ExtReal>, i: nat)
    requires i + 1 < |support| && |bs| > 0 && NonDecreasing(support) && StrictlyAscending(bs)
    ensures AllBefore(OwnersUpTo(support, bs, i), RowUpTo(support, bs, i, |bs| - 1))
  {
    var a, b := OwnersUpTo(support, bs, i), RowUpTo(support, bs, i, |bs| - 1);
    OwnersFit(support, bs, i);
    RowFits(support, bs, i, |bs| - 1);
    forall p, q | 0 <= p < |a| && 0 <= q < |b| ensures a[p].1 < b[q].1 {
      CrossRowOrder(support, bs, a[p].0, i, a[p].1, b[q].1);
    }
  }

  /** Rising piece indices below n: at most n of them. */
  lemma {:induction false} PieceOrderBounded(o: seq<Owner>, n: nat)
    requires PieceOrder(o) && forall k :: 0 <= k < |o| ==> o[k].1 < n
    ensures |o| <= n
    decreases n
  {
    if o != [] {
      var last := |o| - 1;
      var o0 := o[..last];
      assert forall k :: 0 <= k < |o0| ==> o0[k].1 < o[last].1;
      PieceOrderBounded(o0, n - 1);
    }
  }

  /** Some owner is piece j. */
  predicate HasPiece(o: seq<Owner>, j: nat) {
    exists k :: 0 <= k < |o| && o[k].1 == j
  }

  /** Piece j lies within some support segment. */
  predicate InSomeSegment(support: seq<ExtReal>, bs: seq<ExtReal>, j: nat) {
    j + 1 < |bs| && exists i: nat :: i + 1 < |support| && Fits(support, bs, i, j)
  }

  /** Rising piece indices below n that include every piece below n: piece
      k is at position k. */
  lemma {:induction false} PieceOrderComplete(o: seq<Owner>, n: nat)
    requires PieceOrder(o) && forall k :: 0 <= k < |o| ==> o[k].1 < n
    requires forall j: nat :: j < n ==> HasPiece(o, j)
    ensures |o| == n && forall k :: 0 <= k < n ==> o[k].1 == k
    decreases n
  {
    PieceOrderBounded(o, n);
    if n > 0 {
      var last := |o| - 1;
      assert HasPiece(o, n - 1);
      var kn :| 0 <= kn < |o| && o[kn].1 == n - 1;
      assert o[last].1 == n - 1 by {
        if kn < last {
          assert false;
        }
      }
      var o0 := o[..last];
      forall j: nat | j < n - 1 ensures HasPiece(o0, j) {
        assert HasPiece(o, j);
        var k :| 0 <= k < |o| && o[k].1 == j;
        assert k != last;
        assert o0[k].1 == j;
      }
      assert forall k :: 0 <= k < |o0| ==> o0[k].1 < o[last].1;
      PieceOrderComplete(o0, n - 1);
    }
  }

  /** With the support in order and pieces of positive width, seg_func has
      at most one term per piece; when every piece lies within a support
      segment it has exactly one, and term j belongs to piece j. */
  lemma {:induction false} SegmentTermsAligned(support: seq<ExtReal>, bs: seq<ExtReal>)
    requires |support| > 0 && |bs| > 0 && NonDecreasing(support) && StrictlyAscending(bs)
    ensures |Owners(support, bs)| <= |bs| - 1
    ensures (forall j: nat :: j + 1 < |bs| ==> InSomeSegment(support, bs, j)) ==>
      |Owners(support, bs)| == |bs| - 1 && forall k :: 0 <= k < |bs| - 1 ==> Owners(support, bs)[k].1 == k
  {
    var o := Owners(support, bs);
    OwnersOrder(support, bs, |support| - 1);
    OwnersFit(support, bs, |support| - 1);
    PieceOrderBounded(o, |bs| - 1);
    if forall j: nat :: j + 1 < |bs| ==> InSomeSegment(support, bs, j) {
      forall j: nat | j < |bs| - 1 ensures HasPiece(o, j) {
        assert InSomeSegment(support, bs, j);
        var i: nat :| i + 1 < |support| && Fits(support, bs, i, j);
        OwnersComplete(support, bs, |support| - 1, i, j);
        var k :| 0 <= k < |o| && o[k] == (i, j);
      }
      PieceOrderComplete(o, |bs| - 1);
    }
  }

  /** The nested loop building seg_func, over the segments of the PDF. */
  method SegmentTerms<S>(X: RV<S>, bs: seq<ExtReal>, tran: (nat, nat) -> real) returns (seg: seq<real>)
    requires |X.support| == |X.func| + 1 && |bs| > 0
    ensures seg == Terms(Owners(X.support, bs), tran)
  {
    seg := [];
    for i := 0 to |X.func|
      invariant seg == Terms(OwnersUpTo(X.support, bs, i), tran)
    {
      for j := 0 to |bs| - 1
        invariant seg == Terms(OwnersUpTo(X.support, bs, i) + RowUpTo(X.support, bs, i, j), tran)
      {
        if Le(X.support[i], bs[j]) {
          if Le(bs[j + 1], X.support[i + 1]) {
            seg := seg + [tran(i, j)];
          }
        }
      }
    }
  }

  // ---------------------------------------------------------------------
  // The signed sum of each output piece.

  /** Piece j's share of output piece i: its term, added when the piece
      rises (mapping[j][0] < mapping[j][1]) and subtracted otherwise, if
      the piece covers output piece i. */
  function SignedTerm(i: nat, m: Mapping, cover: seq<nat>, v: real): real {
    if i in cover then (if Lt(m.0, m.1) then v else -v) else 0.0
  }

  function SignedTerms(i: nat, mapping: seq<Mapping>, applist: seq<seq<nat>>, seg: seq<real>): (t: seq<real>)
    requires |seg| <= |mapping| && |seg| <= |applist|
    ensures |t| == |seg|
  {
    seq(|seg|, j requires 0 <= j < |seg| => SignedTerm(i, mapping[j], applist[j], seg[j]))
  }

  /** trans_func: one signed sum per output piece. */
  function SignedSumsOf(n: nat, mapping: seq<Mapping>, applist: seq<seq<nat>>, seg: seq<real>): (f: seq<real>)
    requires |seg| <= |mapping| && |seg| <= |applist|
    ensures |f| == n
  {
    seq(n, i requires 0 <= i < n => Sum(SignedTerms(i, mapping, applist, seg)))
  }

  /** Some term is added to or subtracted from h for output piece i. Until
      one is, h is still the int 0 it started as, not an expression. */
  predicate HasTerm(i: nat, applist: seq<seq<nat>>, seg: seq<real>)
    requires |seg| <= |applist|
  {
    exists j :: 0 <= j < |seg| && i in applist[j]
  }

  /** For each output piece, whether its h became an expression. */
  function TermedOf(n: nat, applist: seq<seq<nat>>, seg: seq<real>): (e: seq<bool>)
    requires |seg| <= |applist|
    ensures |e| == n
  {
    seq(n, i requires 0 <= i < n => HasTerm(i, applist, seg))
  }

  /** The loop accumulating h for each output piece; `termed` records, for
      each piece, whether h was ever assigned an expression. */
  method SignedSums(n: nat, mapping: seq<Mapping>, applist: seq<seq<nat>>, seg: seq<real>)
    returns (tf: seq<real>, termed: seq<bool>)
    requires |seg| <= |mapping| && |seg| <= |applist|
    ensures tf == SignedSumsOf(n, mapping, applist, seg)
    ensures termed == TermedOf(n, applist, seg)
  {
    tf, termed := [], [];
    for i := 0 to n
      invariant |tf| == i && |termed| == i
      invariant forall k :: 0 <= k < i ==> tf[k] == Sum(SignedTerms(k, mapping, applist, seg))
      invariant forall k :: 0 <= k < i ==> termed[k] == HasTerm(k, applist, seg)
    {
      var h, isExpr := 0.0, false;
      ghost var t := SignedTerms(i, mapping, applist, seg);
      for j := 0 to |seg|
        invariant h == Sum(t[..j])
        invariant isExpr <==> exists j' :: 0 <= j' < j && i in applist[j']
      {
        SumLast(t, j);
        if i in applist[j] {
          if Lt(mapping[j].0, mapping[j].1) {
            h := h + seg[j];
          } else {
            h := h - seg[j];
          }
          isExpr := true;
        }
      }
      assert t[..|seg|] == t;
      tf, termed := tf + [h], termed + [isExpr];
    }
  }

  /** trans_func2: `.subs(t, x)` on each piece, which raises on a piece
      whose h is still the int 0; on an expression it renames the variable,
      which leaves the value as it is. */
  method Substitute(tf: seq<real>, termed: seq<bool>) returns (r: Result<seq<real>>)
    requires |termed| == |tf|
    ensures r.Err? <==> exists k :: 0 <= k < |tf| && !termed[k]
    ensures r.Err? ==> r.error == NoSubsOnInt
    ensures r.Ok? ==> r.value == tf
  {
    var tf2 := [];
    for i := 0 to |tf|
      invariant tf2 == tf[..i]
      invariant forall k :: 0 <= k < i ==> termed[k]
    {
      if !termed[i] {
        return Err(NoSubsOnInt);
      }
      tf2 := tf2 + [tf[i]];
    }
    assert tf[..|tf|] == tf;
    return Ok(tf2);
  }

  /** The terms of the rising and of the falling pieces that cover output
      piece i. */
  function Rising(i: nat, mapping: seq<Mapping>, applist: seq<seq<nat>>, seg: seq<real>): (t: seq<real>)
    requires |seg| <= |mapping| && |seg| <= |applist|
    ensures |t| == |seg|
  {
    seq(|seg|, j requires 0 <= j < |seg| => if i in applist[j] && Lt(mapping[j].0, mapping[j].1) then seg[j] else 0.0)
  }

  function Falling(i: nat, mapping: seq<Mapping>, applist: seq<seq<nat>>, seg: seq<real>): (t: seq<real>)
    requires |seg| <= |mapping| && |seg| <= |applist|
    ensures |t| == |seg|
  {
    seq(|seg|, j requires 0 <= j < |seg| => if i in applist[j] && !Lt(mapping[j].0, mapping[j].1) then seg[j] else 0.0)
  }

  /** Each output piece is the sum of the terms of the rising pieces that
      cover it minus the sum of those of the falling ones. */
  lemma {:induction false} SignedSumSplit(i: nat, mapping: seq<Mapping>, applist: seq<seq<nat>>, seg: seq<real>)
    requires |seg| <= |mapping| && |seg| <= |applist|
    ensures Sum(SignedTerms(i, mapping, applist, seg))
         == Sum(Rising(i, mapping, applist, seg)) - Sum(Falling(i, mapping, applist, seg))
  {
    var e, q, r := SignedTerms(i, mapping, applist, seg), Rising(i, mapping, applist, seg), Falling(i, mapping, applist, seg);
    forall k | 0 <= k < |seg| ensures e[k] == q[k] - r[k] {
    }
    SumDifference(e, q, r, |seg|);
  }

  /** An output piece no term covers sums to 0, and its h is never
      assigned an expression. */
  lemma {:induction false} UncoveredPieceIsZero(i: nat, mapping: seq<Mapping>, applist: seq<seq<nat>>, seg: seq<real>)
    requires |seg| <= |mapping| && |seg| <= |applist|
    requires forall j :: 0 <= j < |seg| ==> i !in applist[j]
    ensures Sum(SignedTerms(i, mapping, applist, seg)) == 0.0
    ensures !HasTerm(i, applist, seg)
  {
    SumOfZeros(SignedTerms(i, mapping, applist, seg));
  }

  /** The sign rule: a density term f(g^-1(t)) * d/dt g^-1(t) has the sign
      of the slope of its piece, so when every term does, every output
      piece is non-negative. */
  lemma {:induction false} SignRuleNonNegative(i: nat, mapping: seq<Mapping>, applist: seq<seq<nat>>, seg: seq<real>)
    requires |seg| <= |mapping| && |seg| <= |applist|
    requires forall j :: 0 <= j < |seg| ==>
      (Lt(mapping[j].0, mapping[j].1) ==> seg[j] >= 0.0) && (!Lt(mapping[j].0, mapping[j].1) ==> seg[j] <= 0.0)
    ensures Sum(SignedTerms(i, mapping, applist, seg)) >= 0.0
  {
    var t := SignedTerms(i, mapping, applist, seg);
    forall k | 0 <= k < |t| ensures t[k] >= 0.0 {
    }
    SumNonNegative(t);
  }

  // ---------------------------------------------------------------------
  // The whole continuous branch.

  lemma {:induction false} LtTransitive(a: ExtReal, b: ExtReal, c: ExtReal)
    requires Lt(a, b) && Lt(b, c)
    ensures Lt(a, c)
  {
    LeTransitive(a, b, c);
    if a == c {
      LeAntisymmetric(a, b);
    }
  }

  lemma {:induction false} AscendingStrict(s: seq<ExtReal>)
    requires Ascending(s)
    ensures StrictlyAscending(s)
    decreases |s|
  {
    if |s| > 1 {
      var n := |s| - 1;
      AscendingStrict(s[..n]);
      forall i | 0 <= i < n ensures Lt(s[i], s[n]) {
        if i < n - 1 {
          assert Lt(s[..n][i], s[..n][n - 1]);
          LtTransitive(s[i], s[n - 1], s[n]);
        }
      }
    }
  }

  /** What Transform takes: X is the PDF of a continuous RV, gX lists one
      breakpoint more than functions, in order. */
  predicate TransformInput<S, G>(X: RV<S>, funcs: seq<G>, bp: seq<ExtReal>) {
    X.ftype.kind == Continuous && WellFormed(X) && |bp| == |funcs| + 1 && NonDecreasing(bp)
  }

  /** The pieces left after clamping into the support and dropping those of
      zero width: strictly ascending breakpoints. */
  function KeptPieces<S, G>(X: RV<S>, funcs: seq<G>, bp: seq<ExtReal>): (p: Pieces<G>)
    requires TransformInput(X, funcs, bp)
    ensures |p.bps| == |p.funcs| + 1 && StrictlyAscending(p.bps)
  {
    var lo, hi := X.support[0], X.support[|X.support| - 1];
    NonDecreasingLe(X.support, 0, |X.support| - 1);
    ClampAllProperties(bp, lo, hi);
    DropAscending(funcs, ClampAll(bp, lo, hi), |funcs|);
    AscendingStrict(DropUpTo(funcs, ClampAll(bp, lo, hi), |funcs|).bps);
    DropUpTo(funcs, ClampAll(bp, lo, hi), |funcs|)
  }

  function MappingOf<G>(p: Pieces<G>, eval: (G, ExtReal) -> ExtReal): (m: seq<Mapping>)
    requires |p.bps| == |p.funcs| + 1
    ensures |m| == |p.funcs|
  {
    seq(|p.funcs|, i requires 0 <= i < |p.funcs| => (eval(p.funcs[i], p.bps[i]), eval(p.funcs[i], p.bps[i + 1])))
  }

  function CoverageOf(m: seq<Mapping>, ts: seq<ExtReal>): (A: seq<seq<nat>>)
    ensures |A| == |m|
  {
    seq(|m|, i requires 0 <= i < |m| => Covered(m[i], ts))
  }

  /** The support and the PDF pieces of the transformed RV, and for each
      piece whether it is an expression (rather than the int 0). */
  datatype Transformed = Transformed(support: seq<ExtReal>, func: seq<real>, termed: seq<bool>)

  function TransformOf<S, G>(X: RV<S>, funcs: seq<G>, bp: seq<ExtReal>,
                             eval: (G, ExtReal) -> ExtReal, tran: (nat, nat) -> real): Transformed
    requires TransformInput(X, funcs, bp)
  {
    var p := KeptPieces(X, funcs, bp);
    var M := MappingOf(p, eval);
    var ts := SupportOf(M);
    SegmentTermsAligned(X.support, p.bps);
    var seg := Terms(Owners(X.support, p.bps), tran);
    Transformed(ts, SignedSumsOf(Gaps(ts), M, CoverageOf(M, ts), seg), TermedOf(Gaps(ts), CoverageOf(M, ts), seg))
  }

  /** trans_func2, then RV(trans_func2, trans_supp, ['continuous','pdf']):
      the substitution raises on a piece that is the int 0; the constructor
      refuses an empty support for want of a breakpoint. */
  function Outcome(t: Transformed): Result<RV<real>> {
    if false in t.termed then Err(NoSubsOnInt)
    else if t.support == [] then Err(WrongLength)
    else Ok(RV(t.func, t.support, FType(Continuous, Pdf)))
  }

  /** The continuous branch after the clamp. */
  method TransformClamped<S, G>(X: RV<S>, funcs: seq<G>, c: seq<ExtReal>, ghost bp: seq<ExtReal>,
                                eval: (G, ExtReal) -> ExtReal, tran: (nat, nat) -> real)
    returns (ts: seq<ExtReal>, tf: seq<real>, termed: seq<bool>)
    requires TransformInput(X, funcs, bp)
    requires c == ClampAll(bp, X.support[0], X.support[|X.support| - 1])
    ensures Transformed(ts, tf, termed) == TransformOf(X, funcs, bp, eval, tran)
  {
    var fs, bs := DropDegenerate(funcs, c);
    ghost var p := KeptPieces(X, funcs, bp);
    assert Pieces(fs, bs) == p;
    var mapping := Mappings(fs, bs, eval);
    assert mapping == MappingOf(p, eval);
    ts := TransSupport(mapping);
    var applist := Coverage(mapping, ts);
    assert applist == CoverageOf(mapping, ts);
    var seg := SegmentTerms(X, bs, tran);
    SegmentTermsAligned(X.support, bs);
    tf, termed := SignedSums(Gaps(ts), mapping, applist, seg);
  }

  /** Transform(RVar, gX), given X = PDF(RVar): None for a discrete RV;
      otherwise gX[1] is clamped in place and the transformed RV is built. */
  method Transform<S, G>(X: RV<S>, funcs: seq<G>, bp: array<ExtReal>,
                         eval: (G, ExtReal) -> ExtReal, tran: (nat, nat) -> real)
    returns (r: Option<Result<RV<real>>>)
    requires WellFormed(X) && bp.Length == |funcs| + 1 && NonDecreasing(bp[..])
    modifies bp
    ensures X.ftype.kind != Continuous ==> r == None && bp[..] == old(bp[..])
    ensures X.ftype.kind == Continuous ==>
      && bp[..] == ClampAll(old(bp[..]), X.support[0], X.support[|X.support| - 1])
      && r == Some(Outcome(TransformOf(X, funcs, old(bp[..]), eval, tran)))
  {
    if X.ftype.kind != Continuous {
      return None;
    }
    ghost var bp0 := bp[..];
    ClampToSupport(bp, X.support[0], X.support[|X.support| - 1]);
    var ts, tf, termed := TransformClamped(X, funcs, bp[..], bp0, eval, tran);
    var tf2 := Substitute(tf, termed);
    if tf2.Err? {
      return Some(Err(tf2.error));
    }
    ghost var M := MappingOf(KeptPieces(X, funcs, bp0), eval);
    SupportOfMapping(M);
    StrictlyAscendingNonDecreasing(ts);
    var y := NewRV(Segments(tf2.value), Breakpoints(ts), FType(Continuous, Pdf));
    r := Some(y);
  }

  predicate WithinSupport(bs: seq<ExtReal>, lo: ExtReal, hi: ExtReal) {
    forall k :: 0 <= k < |bs| ==> Le(lo, bs[k]) && Le(bs[k], hi)
  }

  /** The test point of every piece lies strictly inside it. */
  predicate InteriorTestPoints(bs: seq<ExtReal>) {
    forall k :: 0 <= k < |bs| - 1 ==>
      Le(bs[k], bs[k + 1]) && Lt(bs[k], TestPoint(bs[k], bs[k + 1])) && Lt(TestPoint(bs[k], bs[k + 1]), bs[k + 1])
  }

  /** The kept pieces are the original pieces of non-zero width, with their
      breakpoints clamped into the support; each has its test point strictly
      inside. */
  lemma {:induction false} KeptPiecesProperties<S, G>(X: RV<S>, funcs: seq<G>, bp: seq<ExtReal>)
    requires TransformInput(X, funcs, bp)
    ensures Selects(KeptPieces(X, funcs, bp),
      NonDegenerate(ClampAll(bp, X.support[0], X.support[|X.support| - 1]), |funcs|),
      funcs, ClampAll(bp, X.support[0], X.support[|X.support| - 1]))
    ensures WithinSupport(KeptPieces(X, funcs, bp).bps, X.support[0], X.support[|X.support| - 1])
    ensures InteriorTestPoints(KeptPieces(X, funcs, bp).bps)
  {
    var lo, hi := X.support[0], X.support[|X.support| - 1];
    var c := ClampAll(bp, lo, hi);
    var p := KeptPieces(X, funcs, bp);
    var K := NonDegenerate(c, |funcs|);
    NonDecreasingLe(X.support, 0, |X.support| - 1);
    ClampAllProperties(bp, lo, hi);
    DropSelects(funcs, c, |funcs|);
    forall k | 0 <= k < |p.bps| ensures Le(lo, p.bps[k]) && Le(p.bps[k], hi) {
      if k < |K| {
        assert p.bps[k] == c[K[k]];
      } else if k > 0 {
        assert p.bps[k] == c[K[k - 1] + 1];
      } else {
        assert p.bps[k] == c[0];
      }
    }
    forall k | 0 <= k < |p.bps| - 1
      ensures Le(p.bps[k], p.bps[k + 1]) && Lt(p.bps[k], TestPoint(p.bps[k], p.bps[k + 1]))
      && Lt(TestPoint(p.bps[k], p.bps[k + 1]), p.bps[k + 1])
    {
      assert Lt(p.bps[k], p.bps[k + 1]);
      PieceTestPointInside(p.bps[k], p.bps[k + 1]);
    }
  }

  /** The transformed RV's support is strictly ascending and holds exactly
      the images of the ends of the kept pieces; it has one PDF piece per
      gap between consecutive breakpoints. */
  lemma {:induction false} TransformedShape<S, G>(X: RV<S>, funcs: seq<G>, bp: seq<ExtReal>,
                                                 eval: (G, ExtReal) -> ExtReal, tran: (nat, nat) -> real)
    requires TransformInput(X, funcs, bp)
    ensures StrictlyAscending(TransformOf(X, funcs, bp, eval, tran).support)
    ensures |TransformOf(X, funcs, bp, eval, tran).func| == Gaps(TransformOf(X, funcs, bp, eval, tran).support)
    ensures forall y :: y in TransformOf(X, funcs, bp, eval, tran).support <==>
      IsEndImage(MappingOf(KeptPieces(X, funcs, bp), eval), y)
  {
    SupportOfMapping(MappingOf(KeptPieces(X, funcs, bp), eval));
  }

  /** The number of terms in seg_func: one per kept piece that lies within
      a support segment. */
  function TermCount<S, G>(X: RV<S>, funcs: seq<G>, bp: seq<ExtReal>): nat
    requires TransformInput(X, funcs, bp)
  {
    |Owners(X.support, KeptPieces(X, funcs, bp).bps)|
  }

  /** None of the first n mappings covers output piece i. */
  predicate Uncovered(m: seq<Mapping>, ts: seq<ExtReal>, n: nat, i: nat) {
    forall j :: 0 <= j < n && j < |m| ==> !Covers(m[j], ts, i)
  }

  /** Transform raises AttributeError exactly when some output piece is
      covered by none of the mappings that terms of seg_func are paired with
      (applist and mapping are indexed by the term's position). */
  lemma {:induction false} TransformRaisesIffUncovered<S, G>(X: RV<S>, funcs: seq<G>, bp: seq<ExtReal>,
                                                           eval: (G, ExtReal) -> ExtReal, tran: (nat, nat) -> real)
    requires TransformInput(X, funcs, bp)
    ensures Outcome(TransformOf(X, funcs, bp, eval, tran)) == Err(NoSubsOnInt) <==>
      exists i :: 0 <= i < Gaps(TransformOf(X, funcs, bp, eval, tran).support) &&
        Uncovered(MappingOf(KeptPieces(X, funcs, bp), eval), TransformOf(X, funcs, bp, eval, tran).support,
                  TermCount(X, funcs, bp), i)
  {
    var p := KeptPieces(X, funcs, bp);
    var M := MappingOf(p, eval);
    var T := TransformOf(X, funcs, bp, eval, tran);
    var ts := T.support;
    SegmentTermsAligned(X.support, p.bps);
    var seg := Terms(Owners(X.support, p.bps), tran);
    var A := CoverageOf(M, ts);
    assert T.termed == TermedOf(Gaps(ts), A, seg);
    forall i | 0 <= i < Gaps(ts) ensures T.termed[i] <==> !Uncovered(M, ts, |seg|, i) {
      forall j | 0 <= j < |seg| ensures i in A[j] <==> Covers(M[j], ts, i) {
        CoveredMembers(M[j], ts, Gaps(ts));
      }
      if T.termed[i] {
        var j :| 0 <= j < |seg| && i in A[j];
        assert Covers(M[j], ts, i);
      }
    }
    if Outcome(T) == Err(NoSubsOnInt) {
      var i :| 0 <= i < |T.termed| && T.termed[i] == false;
      assert Uncovered(M, ts, TermCount(X, funcs, bp), i);
    }
    if exists i :: 0 <= i < Gaps(ts) && Uncovered(M, ts, TermCount(X, funcs, bp), i) {
      var i :| 0 <= i < Gaps(ts) && Uncovered(M, ts, TermCount(X, funcs, bp), i);
      assert !T.termed[i];
    }
  }
}
