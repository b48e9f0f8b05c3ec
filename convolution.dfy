/** The discrete branch of Convolution: the distribution of X1 + X2 for
    independent discrete X1, X2. Every pair of atoms gives a sum and the
    product of their probabilities; the (sum, probability) pairs are sorted
    and equal sums are merged by adding their probabilities. */
module Convolutions {
  import opened ExtReals
  import opened Seqs
  import opened Sorting
  import opened RandomVariables
  import opened DiscreteForms
  import opened Moments

  /** A (sum, probability) pair of sortlist. */
  type Pair = (real, real)

  /** zip(convlist, funclist) */
  function Zip(c: seq<real>, f: seq<real>): (z: seq<Pair>)
    requires |c| == |f|
    ensures |z| == |c| && forall i :: 0 <= i < |c| ==> z[i] == (c[i], f[i])
  {
    seq(|c|, i requires 0 <= i < |c| => (c[i], f[i]))
  }

  /** Python's order on tuples: by sum, then by probability. */
  predicate LexLe(p: Pair, q: Pair) {
    p.0 < q.0 || (p.0 == q.0 && p.1 <= q.1)
  }

  lemma {:induction false} LexLeIsTotalPreorder()
    ensures TotalPreorder(LexLe)
  {
  }

  /** The pair for atoms x and y with probabilities p and q. */
  function PairOf(x: real, p: real, y: real, q: real): Pair {
    (x + y, p * q)
  }

  /** The pairs the inner loop makes for the atom x of X1 with probability p. */
  function Row(x: real, p: real, a2: seq<real>, f2: seq<real>): (r: seq<Pair>)
    requires |a2| == |f2|
    ensures |r| == |a2|
  {
    seq(|a2|, j requires 0 <= j < |a2| => PairOf(x, p, a2[j], f2[j]))
  }

  /** The pairs of the first i rows of the nested loop, in loop order. */
  function PairsUpTo(a1: seq<real>, f1: seq<real>, a2: seq<real>, f2: seq<real>, i: nat): seq<Pair>
    requires |a1| == |f1| && |a2| == |f2| && i <= |a1|
    decreases i
  {
    if i == 0 then [] else PairsUpTo(a1, f1, a2, f2, i - 1) + Row(a1[i - 1], f1[i - 1], a2, f2)
  }

  function Pairs(a1: seq<real>, f1: seq<real>, a2: seq<real>, f2: seq<real>): seq<Pair>
    requires |a1| == |f1| && |a2| == |f2|
  {
    PairsUpTo(a1, f1, a2, f2, |a1|)
  }

  /** The two lists the merging loop builds: convlist3 and funclist3. */
  datatype Merged = Merged(keys: seq<real>, probs: seq<real>)

  /** The merge after the loop has visited S[..i]: a new sum is appended,
      a sum already present gets the probability added at its index. */
  function MergeUpTo(S: seq<Pair>, i: nat): (m: Merged)
    requires i <= |S|
    ensures |m.keys| == |m.probs|
    decreases i
  {
    if i == 0 then Merged([], []) else MergeStep(MergeUpTo(S, i - 1), S[i - 1].0, S[i - 1].1)
  }

  /** One pass of the merging loop on the sum x with probability p. */
  function MergeStep(m: Merged, x: real, p: real): (m': Merged)
    requires |m.keys| == |m.probs|
    ensures |m'.keys| == |m'.probs|
  {
    if x !in m.keys then Merged(m.keys + [x], m.probs + [p])
    else
      var k := IndexOf(m.keys, x);
      Merged(m.keys, m.probs[k := m.probs[k] + p])
  }

  /** The distribution the discrete branch returns, on the atoms and
      probabilities of the two PDFs. */
  function ConvolutionOf(a1: seq<real>, f1: seq<real>, a2: seq<real>, f2: seq<real>): Merged
    requires |a1| == |f1| && |a2| == |f2|
  {
    var S := Sort(LexLe, Pairs(a1, f1, a2, f2));
    MergeUpTo(S, |S|)
  }

  /** The probability of a pair. */
  function Prob(pr: Pair): real {
    pr.1
  }

  /** The probability of a pair if its sum is x, else 0. */
  function Weight(x: real): Pair -> real {
    (pr: Pair) => if pr.0 == x then pr.1 else 0.0
  }

  /** Some pair of S has the sum x. */
  predicate HasSum(S: seq<Pair>, x: real) {
    exists t :: 0 <= t < |S| && S[t].0 == x
  }

  // ---------------------------------------------------------------------
  // The merge, on any list of pairs.

  /** The merged sums are exactly the sums met so far. */
  lemma {:induction false} MergeKeys(S: seq<Pair>, i: nat)
    requires i <= |S|
    ensures forall x :: x in MergeUpTo(S, i).keys <==> HasSum(S[..i], x)
    decreases i
  {
    if i > 0 {
      MergeKeys(S, i - 1);
      var m := MergeUpTo(S, i - 1);
      forall x ensures x in MergeUpTo(S, i).keys <==> HasSum(S[..i], x) {
        HasSumSnoc(S, i - 1, x);
      }
    }
  }

  lemma {:induction false} HasSumSnoc(S: seq<Pair>, i: nat, x: real)
    requires i < |S|
    ensures HasSum(S[..i + 1], x) <==> HasSum(S[..i], x) || S[i].0 == x
  {
    if HasSum(S[..i + 1], x) {
      var t :| 0 <= t < i + 1 && S[..i + 1][t].0 == x;
      if t < i {
        assert S[..i][t].0 == x;
      }
    }
    if HasSum(S[..i], x) {
      var t :| 0 <= t < i && S[..i][t].0 == x;
      assert S[..i + 1][t].0 == x;
    }
    if S[i].0 == x {
      assert S[..i + 1][i].0 == x;
    }
  }

  /** No sum is merged twice. */
  lemma {:induction false} MergeNoDup(S: seq<Pair>, i: nat)
    requires i <= |S|
    ensures NoDup(MergeUpTo(S, i).keys)
    decreases i
  {
    if i > 0 {
      MergeNoDup(S, i - 1);
    }
  }

  /** Each merged probability is the sum of the probabilities of the pairs
      with that sum. */
  predicate ProbsMatch(S: seq<Pair>, m: Merged) {
    |m.probs| == |m.keys| &&
    forall k :: 0 <= k < |m.keys| ==> m.probs[k] == SumBy(S, Weight(m.keys[k]))
  }

  lemma {:induction false} MergeProbs(S: seq<Pair>, i: nat)
    requires i <= |S|
    ensures ProbsMatch(S[..i], MergeUpTo(S, i))
    decreases i
  {
    if i > 0 {
      MergeProbs(S, i - 1);
      MergeNoDup(S, i - 1);
      MergeKeys(S, i - 1);
      var m := MergeUpTo(S, i - 1);
      var m' := MergeUpTo(S, i);
      var x, p := S[i - 1].0, S[i - 1].1;
      forall k | 0 <= k < |m'.keys| ensures m'.probs[k] == SumBy(S[..i], Weight(m'.keys[k])) {
        var y := m'.keys[k];
        SumByLast(S, i - 1, Weight(y));
        assert S[..i - 1 + 1] == S[..i];
        assert SumBy(S[..i], Weight(y)) == SumBy(S[..i - 1], Weight(y)) + Weight(y)(S[i - 1]);
        assert Weight(y)(S[i - 1]) == if x == y then p else 0.0;
        if x !in m.keys {
          if k == |m.keys| {
            assert y == x && m'.probs[k] == p;
            assert !HasSum(S[..i - 1], x);
            NoSumNoWeight(S[..i - 1], x);
          } else {
            assert y == m.keys[k] && y != x && m'.probs[k] == m.probs[k];
            assert m.probs[k] == SumBy(S[..i - 1], Weight(y));
          }
        } else {
          var idx := IndexOf(m.keys, x);
          assert y == m.keys[k];
          assert m.probs[k] == SumBy(S[..i - 1], Weight(y));
          if k == idx {
            assert y == x && m'.probs[k] == m.probs[k] + p;
          } else {
            assert y != x && m'.probs[k] == m.probs[k];
          }
        }
      }
    }
  }

  lemma {:induction false} NoSumNoWeight(S: seq<Pair>, x: real)
    requires !HasSum(S, x)
    ensures SumBy(S, Weight(x)) == 0.0
  {
    forall t | 0 <= t < |S| ensures Weight(x)(S[t]) == 0.0 {
      assert S[t].0 != x;
    }
    SumByZero(S, Weight(x));
  }

  /** Merging keeps the total probability. */
  lemma {:induction false} MergeMass(S: seq<Pair>, i: nat)
    requires i <= |S|
    ensures Sum(MergeUpTo(S, i).probs) == SumBy(S[..i], Prob)
    decreases i
  {
    if i > 0 {
      MergeMass(S, i - 1);
      SumByLast(S, i - 1, Prob);
      MergeStepMass(MergeUpTo(S, i - 1), S[i - 1].0, S[i - 1].1);
    }
  }

  /** One merge step adds its probability to the total. */
  lemma {:induction false} MergeStepMass(m: Merged, x: real, p: real)
    requires |m.keys| == |m.probs|
    ensures Sum(MergeStep(m, x, p).probs) == Sum(m.probs) + p
  {
    if x !in m.keys {
      assert (m.probs + [p])[..|m.probs|] == m.probs;
    } else {
      SumUpdate(m.probs, IndexOf(m.keys, x), p);
    }
  }

  /** On a list sorted by sum every new sum is larger than those merged. */
  lemma {:induction false} MergeIncreasing(S: seq<Pair>, i: nat)
    requires SortedBy(LexLe, S) && i <= |S|
    ensures StrictlyIncreasing(MergeUpTo(S, i).keys)
    decreases i
  {
    if i > 0 {
      MergeIncreasing(S, i - 1);
      var ks := MergeUpTo(S, i - 1).keys;
      var x := S[i - 1].0;
      if x !in ks {
        MergeKeys(S, i - 1);
        forall j | 0 <= j < |ks| ensures ks[j] < x {
          EarlierSumBelow(S, i - 1, ks[j]);
        }
        AppendAbove(ks, x);
      }
    }
  }

  lemma {:induction false} EarlierSumBelow(S: seq<Pair>, i: nat, y: real)
    requires SortedBy(LexLe, S) && i < |S| && HasSum(S[..i], y)
    ensures y <= S[i].0
  {
    var t :| 0 <= t < i && S[..i][t].0 == y;
    assert LexLe(S[t], S[i]);
  }

  // ---------------------------------------------------------------------
  // The pair list.

  lemma {:induction false} HasSumConcat(A: seq<Pair>, B: seq<Pair>, x: real)
    ensures HasSum(A + B, x) <==> HasSum(A, x) || HasSum(B, x)
  {
    if HasSum(A + B, x) {
      var t :| 0 <= t < |A + B| && (A + B)[t].0 == x;
      if t >= |A| {
        assert B[t - |A|].0 == x;
      }
    }
    if HasSum(A, x) {
      var t :| 0 <= t < |A| && A[t].0 == x;
      assert (A + B)[t].0 == x;
    }
    if HasSum(B, x) {
      var t :| 0 <= t < |B| && B[t].0 == x;
      assert (A + B)[|A| + t].0 == x;
    }
  }

  /** The sums of the pairs are exactly the sums of an atom of X1 (among the
      first i) and an atom of X2. */
  lemma {:induction false} PairsSums(a1: seq<real>, f1: seq<real>, a2: seq<real>, f2: seq<real>, i: nat, x: real)
    requires |a1| == |f1| && |a2| == |f2| && i <= |a1|
    ensures HasSum(PairsUpTo(a1, f1, a2, f2, i), x) <==>
      exists r, j :: 0 <= r < i && 0 <= j < |a2| && x == a1[r] + a2[j]
    decreases i
  {
    if i > 0 {
      PairsSums(a1, f1, a2, f2, i - 1, x);
      var R := Row(a1[i - 1], f1[i - 1], a2, f2);
      HasSumConcat(PairsUpTo(a1, f1, a2, f2, i - 1), R, x);
      if HasSum(R, x) {
        var j :| 0 <= j < |R| && R[j].0 == x;
        assert R[j] == PairOf(a1[i - 1], f1[i - 1], a2[j], f2[j]);
      }
      if exists j :: 0 <= j < |a2| && x == a1[i - 1] + a2[j] {
        var j :| 0 <= j < |a2| && x == a1[i - 1] + a2[j];
        assert R[j] == PairOf(a1[i - 1], f1[i - 1], a2[j], f2[j]);
      }
    }
  }

  /** One row carries p times the mass of X2. */
  lemma {:induction false} RowTotal(x: real, p: real, a2: seq<real>, f2: seq<real>)
    requires |a2| == |f2|
    ensures SumBy(Row(x, p, a2, f2), Prob) == p * Sum(f2)
  {
    var R := Row(x, p, a2, f2);
    SumByImage(R, Prob);
    forall j | 0 <= j < |R| ensures Image(R, Prob)[j] == Scale(p, f2)[j] {
      assert R[j] == PairOf(x, p, a2[j], f2[j]);
      assert Image(R, Prob)[j] == Prob(R[j]) == p * f2[j];
      assert Scale(p, f2)[j] == p * f2[j];
    }
    assert Image(R, Prob) == Scale(p, f2);
    ScaleSum(f2, p);
  }

  /** The mass of each row of the nested loop. */
  function RowMasses(a1: seq<real>, f1: seq<real>, a2: seq<real>, f2: seq<real>): (r: seq<real>)
    requires |a1| == |f1| && |a2| == |f2|
    ensures |r| == |a1|
  {
    seq(|a1|, i requires 0 <= i < |a1| => SumBy(Row(a1[i], f1[i], a2, f2), Prob))
  }

  lemma {:induction false} RowMassAt(a1: seq<real>, f1: seq<real>, a2: seq<real>, f2: seq<real>, i: nat, m: real)
    requires |a1| == |f1| && |a2| == |f2| && i < |a1| && m == RowMasses(a1, f1, a2, f2)[i]
    ensures m == f1[i] * Sum(f2)
  {
    RowTotal(a1[i], f1[i], a2, f2);
  }

  lemma {:induction false} RowMassesAreMultiples(a1: seq<real>, f1: seq<real>, a2: seq<real>, f2: seq<real>)
    requires |a1| == |f1| && |a2| == |f2|
    ensures forall i :: 0 <= i < |a1| ==> RowMasses(a1, f1, a2, f2)[i] == f1[i] * Sum(f2)
  {
    var M := RowMasses(a1, f1, a2, f2);
    forall i | 0 <= i < |a1| ensures M[i] == f1[i] * Sum(f2) {
      RowMassAt(a1, f1, a2, f2, i, M[i]);
    }
  }

  /** The pairs of the first i rows carry the masses of those rows. */
  lemma {:induction false} PairsByRows(a1: seq<real>, f1: seq<real>, a2: seq<real>, f2: seq<real>, i: nat)
    requires |a1| == |f1| && |a2| == |f2| && i <= |a1|
    ensures SumBy(PairsUpTo(a1, f1, a2, f2, i), Prob) == Sum(RowMasses(a1, f1, a2, f2)[..i])
    decreases i
  {
    var M := RowMasses(a1, f1, a2, f2);
    if i == 0 {
      assert M[..0] == [];
    } else {
      var P, R := PairsUpTo(a1, f1, a2, f2, i - 1), Row(a1[i - 1], f1[i - 1], a2, f2);
      PairsByRows(a1, f1, a2, f2, i - 1);
      assert PairsUpTo(a1, f1, a2, f2, i) == P + R;
      SumByConcat(P, R, Prob);
      assert M[i - 1] == SumBy(R, Prob);
      SumLast(M, i - 1);
    }
  }

  /** The pairs carry the product of the two masses. */
  lemma {:induction false} PairsMass(a1: seq<real>, f1: seq<real>, a2: seq<real>, f2: seq<real>)
    requires |a1| == |f1| && |a2| == |f2|
    ensures SumBy(Pairs(a1, f1, a2, f2), Prob) == Sum(f1) * Sum(f2)
  {
    RowMassesTotal(a1, f1, a2, f2);
    AllRows(a1, f1, a2, f2);
  }

  lemma {:induction false} RowMassesTotal(a1: seq<real>, f1: seq<real>, a2: seq<real>, f2: seq<real>)
    requires |a1| == |f1| && |a2| == |f2|
    ensures Sum(RowMasses(a1, f1, a2, f2)) == Sum(f1) * Sum(f2)
  {
    RowMassesAreMultiples(a1, f1, a2, f2);
    SumOfMultiples(RowMasses(a1, f1, a2, f2), f1, Sum(f2), |a1|);
  }

  lemma {:induction false} AllRows(a1: seq<real>, f1: seq<real>, a2: seq<real>, f2: seq<real>)
    requires |a1| == |f1| && |a2| == |f2|
    ensures SumBy(Pairs(a1, f1, a2, f2), Prob) == Sum(RowMasses(a1, f1, a2, f2))
  {
    var M := RowMasses(a1, f1, a2, f2);
    var n := |M|;
    PairsByRows(a1, f1, a2, f2, n);
    assert M[..n] == M;
  }

  /** Sorting neither adds nor removes a sum. */
  lemma {:induction false} SortHasSum(S: seq<Pair>, x: real)
    ensures HasSum(Sort(LexLe, S), x) <==> HasSum(S, x)
  {
    var T := Sort(LexLe, S);
    if HasSum(S, x) {
      var t :| 0 <= t < |S| && S[t].0 == x;
      assert S[t] in multiset(T);
      var u :| 0 <= u < |T| && T[u] == S[t];
    }
    if HasSum(T, x) {
      var t :| 0 <= t < |T| && T[t].0 == x;
      assert T[t] in multiset(S);
      var u :| 0 <= u < |S| && S[u] == T[t];
    }
  }

  /** The result of the discrete branch: its support is strictly increasing
      and holds exactly the sums a1[i] + a2[j]; the probability of each sum
      is the total probability of the pairs giving it; the total mass is the
      product of the two masses. */
  lemma {:induction false} ConvolutionDistribution(a1: seq<real>, f1: seq<real>, a2: seq<real>, f2: seq<real>)
    requires |a1| == |f1| && |a2| == |f2|
    ensures var m, P := ConvolutionOf(a1, f1, a2, f2), Pairs(a1, f1, a2, f2);
      && StrictlyIncreasing(m.keys)
      && (forall x :: x in m.keys <==> exists i, j :: 0 <= i < |a1| && 0 <= j < |a2| && x == a1[i] + a2[j])
      && (forall k :: 0 <= k < |m.keys| ==> m.probs[k] == SumBy(P, Weight(m.keys[k])))
      && Sum(m.probs) == Sum(f1) * Sum(f2)
  {
    var P := Pairs(a1, f1, a2, f2);
    var S := Sort(LexLe, P);
    var m := MergeUpTo(S, |S|);
    assert S[..|S|] == S;
    LexLeIsTotalPreorder();
    SortSorted(LexLe, P);
    MergeIncreasing(S, |S|);
    MergeKeys(S, |S|);
    forall x ensures x in m.keys <==> exists i, j :: 0 <= i < |a1| && 0 <= j < |a2| && x == a1[i] + a2[j] {
      SortHasSum(P, x);
      PairsSums(a1, f1, a2, f2, |a1|, x);
    }
    MergeProbs(S, |S|);
    forall k | 0 <= k < |m.keys| ensures m.probs[k] == SumBy(P, Weight(m.keys[k])) {
      SortSumBy(LexLe, P, Weight(m.keys[k]));
    }
    MergeMass(S, |S|);
    SortSumBy(LexLe, P, Prob);
    PairsMass(a1, f1, a2, f2);
  }

  // ---------------------------------------------------------------------
  // The first moment: E(X1 + X2) = E(X1) + E(X2).

  /** The sum of a pair weighted by its probability. */
  function Moment(pr: Pair): real {
    pr.0 * pr.1
  }

  lemma {:induction false} WeightedUpdate(x: real, a: real, p: real)
    ensures x * (a + p) == x * a + x * p
  {
  }

  /** One merge step adds x * p to the weighted sum of the merged lists. */
  lemma {:induction false} MergeStepMoment(m: Merged, pr: Pair)
    requires |m.keys| == |m.probs|
    ensures Dot(MergeStep(m, pr.0, pr.1).keys, MergeStep(m, pr.0, pr.1).probs) == Dot(m.keys, m.probs) + Moment(pr)
  {
    MergeStepProduct(m, pr.0, pr.1);
  }

  lemma {:induction false} MergeStepProduct(m: Merged, x: real, p: real)
    requires |m.keys| == |m.probs|
    ensures Dot(MergeStep(m, x, p).keys, MergeStep(m, x, p).probs) == Dot(m.keys, m.probs) + x * p
  {
    if x !in m.keys {
      AppendProduct(m.keys, m.probs, x, p);
    } else {
      UpdateProduct(m.keys, m.probs, IndexOf(m.keys, x), p);
    }
  }

  /** A new sum adds its weighted probability. */
  lemma {:induction false} AppendProduct(keys: seq<real>, probs: seq<real>, x: real, p: real)
    requires |keys| == |probs|
    ensures Dot(keys + [x], probs + [p]) == Dot(keys, probs) + x * p
  {
    var n := |keys|;
    DotLast(keys + [x], probs + [p], n);
    assert (keys + [x])[..n] == keys && (probs + [p])[..n] == probs;
    assert (keys + [x])[..n + 1] == keys + [x] && (probs + [p])[..n + 1] == probs + [p];
  }

  /** Raising the probability of the sum at k by p adds keys[k] * p. */
  lemma {:induction false} UpdateProduct(keys: seq<real>, probs: seq<real>, k: nat, p: real)
    requires |keys| == |probs| && k < |keys|
    ensures Dot(keys, probs[k := probs[k] + p]) == Dot(keys, probs) + keys[k] * p
  {
    var P, P' := Products(keys, probs), Products(keys, probs[k := probs[k] + p]);
    forall j | 0 <= j < |keys| ensures P'[j] == P[k := P[k] + keys[k] * p][j] {
      if j == k {
        WeightedUpdate(keys[k], probs[k], p);
      }
    }
    assert P' == P[k := P[k] + keys[k] * p];
    SumUpdate(P, k, keys[k] * p);
  }

  /** Merging keeps the weighted sum of the pairs. */
  lemma {:induction false} MergeMoment(S: seq<Pair>, i: nat)
    requires i <= |S|
    ensures Dot(MergeUpTo(S, i).keys, MergeUpTo(S, i).probs) == SumBy(S[..i], Moment)
    decreases i
  {
    if i == 0 {
      assert Products([], []) == [];
    } else {
      MergeMoment(S, i - 1);
      SumByLast(S, i - 1, Moment);
      MergeStepMoment(MergeUpTo(S, i - 1), S[i - 1]);
    }
  }

  lemma {:induction false} PairMoment(x: real, p: real, y: real, q: real)
    ensures (x + y) * (p * q) == (x * p) * q + p * (y * q)
  {
  }

  /** One row weights x by p times the mass of X2, plus p times its mean. */
  lemma {:induction false} RowMoment(x: real, p: real, a2: seq<real>, f2: seq<real>)
    requires |a2| == |f2|
    ensures SumBy(Row(x, p, a2, f2), Moment) == (x * p) * Sum(f2) + p * Dot(a2, f2)
  {
    SumByImage(Row(x, p, a2, f2), Moment);
    PairMoments(x, p, a2, f2);
    RowSplitSum(Image(Row(x, p, a2, f2), Moment), x, p, a2, f2);
  }

  lemma {:induction false} RowSplitSum(e: seq<real>, x: real, p: real, a2: seq<real>, f2: seq<real>)
    requires |a2| == |f2| && IsTwoMultiples(e, f2, Products(a2, f2), x * p, p)
    ensures Sum(e) == (x * p) * Sum(f2) + p * Dot(a2, f2)
  {
    SumOfTwoMultiples(e, f2, Products(a2, f2), x * p, p);
  }

  lemma {:induction false} PairMoments(x: real, p: real, a2: seq<real>, f2: seq<real>)
    requires |a2| == |f2|
    ensures IsTwoMultiples(Image(Row(x, p, a2, f2), Moment), f2, Products(a2, f2), x * p, p)
  {
    forall k | 0 <= k < |a2| ensures Image(Row(x, p, a2, f2), Moment)[k] == (x * p) * f2[k] + p * Products(a2, f2)[k] {
      PairMomentAt(x, p, a2, f2, k);
    }
  }

  lemma {:induction false} PairMomentAt(x: real, p: real, a2: seq<real>, f2: seq<real>, k: nat)
    requires |a2| == |f2| && k < |a2|
    ensures Image(Row(x, p, a2, f2), Moment)[k] == (x * p) * f2[k] + p * Products(a2, f2)[k]
  {
    var y, w := a2[k], f2[k];
    assert Row(x, p, a2, f2)[k] == PairOf(x, p, y, w);
    assert Image(Row(x, p, a2, f2), Moment)[k] == (x + y) * (p * w);
    assert Products(a2, f2)[k] == y * w;
    PairMoment(x, p, y, w);
  }

  /** The weighted sum of each row of the nested loop. */
  function RowMoments(a1: seq<real>, f1: seq<real>, a2: seq<real>, f2: seq<real>): (r: seq<real>)
    requires |a1| == |f1| && |a2| == |f2|
    ensures |r| == |a1|
  {
    seq(|a1|, i requires 0 <= i < |a1| => SumBy(Row(a1[i], f1[i], a2, f2), Moment))
  }

  /** The pairs of the first i rows carry the weighted sums of those rows. */
  lemma {:induction false} PairsByRowMoments(a1: seq<real>, f1: seq<real>, a2: seq<real>, f2: seq<real>, i: nat)
    requires |a1| == |f1| && |a2| == |f2| && i <= |a1|
    ensures SumBy(PairsUpTo(a1, f1, a2, f2, i), Moment) == Sum(RowMoments(a1, f1, a2, f2)[..i])
    decreases i
  {
    var M := RowMoments(a1, f1, a2, f2);
    if i == 0 {
      assert M[..0] == [];
    } else {
      var P, R := PairsUpTo(a1, f1, a2, f2, i - 1), Row(a1[i - 1], f1[i - 1], a2, f2);
      PairsByRowMoments(a1, f1, a2, f2, i - 1);
      assert PairsUpTo(a1, f1, a2, f2, i) == P + R;
      SumByConcat(P, R, Moment);
      assert M[i - 1] == SumBy(R, Moment);
      SumLast(M, i - 1);
    }
  }

  /** Row by row, the weighted sums add up to the first operand's weighted
      sum times the second's mass, plus the first's mass times the second's
      weighted sum. */
  lemma {:induction false} RowMomentsTotal(a1: seq<real>, f1: seq<real>, a2: seq<real>, f2: seq<real>)
    requires |a1| == |f1| && |a2| == |f2|
    ensures Sum(RowMoments(a1, f1, a2, f2)) == Sum(f2) * Dot(a1, f1) + Dot(a2, f2) * Sum(f1)
  {
    RowMomentsSplit(a1, f1, a2, f2);
    RowsSplitSum(RowMoments(a1, f1, a2, f2), a1, f1, a2, f2);
  }

  lemma {:induction false} RowsSplitSum(e: seq<real>, a1: seq<real>, f1: seq<real>, a2: seq<real>, f2: seq<real>)
    requires |a1| == |f1| && |a2| == |f2| && IsTwoMultiples(e, Products(a1, f1), f1, Sum(f2), Dot(a2, f2))
    ensures Sum(e) == Sum(f2) * Dot(a1, f1) + Dot(a2, f2) * Sum(f1)
  {
    SumOfTwoMultiples(e, Products(a1, f1), f1, Sum(f2), Dot(a2, f2));
  }

  lemma {:induction false} RowMomentsSplit(a1: seq<real>, f1: seq<real>, a2: seq<real>, f2: seq<real>)
    requires |a1| == |f1| && |a2| == |f2|
    ensures IsTwoMultiples(RowMoments(a1, f1, a2, f2), Products(a1, f1), f1, Sum(f2), Dot(a2, f2))
  {
    forall k | 0 <= k < |a1|
      ensures RowMoments(a1, f1, a2, f2)[k] == Sum(f2) * Products(a1, f1)[k] + Dot(a2, f2) * f1[k]
    {
      RowMomentAt(a1, f1, a2, f2, k);
    }
  }

  lemma {:induction false} RowMomentAt(a1: seq<real>, f1: seq<real>, a2: seq<real>, f2: seq<real>, k: nat)
    requires |a1| == |f1| && |a2| == |f2| && k < |a1|
    ensures RowMoments(a1, f1, a2, f2)[k] == Sum(f2) * Products(a1, f1)[k] + Dot(a2, f2) * f1[k]
  {
    RowMoment(a1[k], f1[k], a2, f2);
    assert Products(a1, f1)[k] == a1[k] * f1[k];
  }

  /** The pairs of the nested loop weigh in the means of both operands,
      each scaled by the mass of the other. */
  lemma {:induction false} PairsMoment(a1: seq<real>, f1: seq<real>, a2: seq<real>, f2: seq<real>)
    requires |a1| == |f1| && |a2| == |f2|
    ensures SumBy(Pairs(a1, f1, a2, f2), Moment) == Sum(f2) * Dot(a1, f1) + Dot(a2, f2) * Sum(f1)
  {
    var M := RowMoments(a1, f1, a2, f2);
    PairsByRowMoments(a1, f1, a2, f2, |a1|);
    assert M[..|a1|] == M;
    RowMomentsTotal(a1, f1, a2, f2);
  }

  /** The weighted sum of the convolution is the first operand's weighted
      sum times the second's mass plus the first's mass times the second's
      weighted sum. */
  lemma {:induction false} ConvolutionMoment(a1: seq<real>, f1: seq<real>, a2: seq<real>, f2: seq<real>)
    requires |a1| == |f1| && |a2| == |f2|
    ensures Dot(ConvolutionOf(a1, f1, a2, f2).keys, ConvolutionOf(a1, f1, a2, f2).probs)
         == Sum(f2) * Dot(a1, f1) + Dot(a2, f2) * Sum(f1)
  {
    MergedPairsMoment(Sort(LexLe, Pairs(a1, f1, a2, f2)));
    SortSumBy(LexLe, Pairs(a1, f1, a2, f2), Moment);
    PairsMoment(a1, f1, a2, f2);
  }

  lemma {:induction false} MergedPairsMoment(S: seq<Pair>)
    ensures Dot(MergeUpTo(S, |S|).keys, MergeUpTo(S, |S|).probs) == SumBy(S, Moment)
  {
    MergeMoment(S, |S|);
    assert S[..|S|] == S;
  }

  // ---------------------------------------------------------------------
  // The loops of the source.

  /** The nested loop: convlist gets s1[i] + s2[j], funclist f1[i] * f2[j]. */
  method CrossLists(a1: seq<real>, f1: seq<real>, a2: seq<real>, f2: seq<real>)
    returns (convlist: seq<real>, funclist: seq<real>)
    requires |a1| == |f1| && |a2| == |f2|
    ensures |convlist| == |funclist| && Zip(convlist, funclist) == Pairs(a1, f1, a2, f2)
  {
    convlist, funclist := [], [];
    for i := 0 to |a1|
      invariant |convlist| == |funclist|
      invariant Zip(convlist, funclist) == PairsUpTo(a1, f1, a2, f2, i)
    {
      ghost var before := Zip(convlist, funclist);
      var R := Row(a1[i], f1[i], a2, f2);
      for j := 0 to |a2|
        invariant |convlist| == |funclist|
        invariant Zip(convlist, funclist) == before + R[..j]
      {
        ZipSnoc(convlist, funclist, a1[i] + a2[j], f1[i] * f2[j]);
        assert R[..j + 1] == R[..j] + [PairOf(a1[i], f1[i], a2[j], f2[j])];
        convlist := convlist + [a1[i] + a2[j]];
        funclist := funclist + [f1[i] * f2[j]];
      }
      assert R[..|a2|] == R;
    }
  }

  lemma {:induction false} ZipSnoc(c: seq<real>, f: seq<real>, x: real, p: real)
    requires |c| == |f|
    ensures Zip(c + [x], f + [p]) == Zip(c, f) + [(x, p)]
  {
  }

  /** The loop that splits sortlist back into convlist2 and funclist2. */
  method Unzip(sortlist: seq<Pair>) returns (convlist2: seq<real>, funclist2: seq<real>)
    ensures |convlist2| == |funclist2| && Zip(convlist2, funclist2) == sortlist
  {
    convlist2, funclist2 := [], [];
    for i := 0 to |sortlist|
      invariant |convlist2| == |funclist2| == i
      invariant Zip(convlist2, funclist2) == sortlist[..i]
    {
      ZipSnoc(convlist2, funclist2, sortlist[i].0, sortlist[i].1);
      assert sortlist[..i + 1] == sortlist[..i] + [sortlist[i]];
      convlist2 := convlist2 + [sortlist[i].0];
      funclist2 := funclist2 + [sortlist[i].1];
    }
    assert sortlist[..|sortlist|] == sortlist;
  }

  /** The loop that removes repeated sums, adding their probabilities at
      the index of the first. */
  method MergeRepeated(convlist2: seq<real>, funclist2: seq<real>) returns (m: Merged)
    requires |convlist2| == |funclist2|
    ensures m == MergeUpTo(Zip(convlist2, funclist2), |convlist2|)
  {
    var S := Zip(convlist2, funclist2);
    var convlist3: seq<real> := [];
    var funclist3: seq<real> := [];
    for i := 0 to |convlist2|
      invariant Merged(convlist3, funclist3) == MergeUpTo(S, i)
    {
      if convlist2[i] !in convlist3 {
        convlist3 := convlist3 + [convlist2[i]];
        funclist3 := funclist3 + [funclist2[i]];
      } else {
        var k := IndexOf(convlist3, convlist2[i]);
        funclist3 := funclist3[k := funclist3[k] + funclist2[i]];
      }
    }
    m := Merged(convlist3, funclist3);
  }

  /** Atoms and probabilities of the PDF of a discrete RV. */
  function AtomsOf(X: RV<real>): seq<real>
    requires Convertible(X) && AllFinite(X.support)
  {
    ConversionsWellFormed(X);
    Values(PdfOf(X).support)
  }

  /** The RV the discrete branch returns. */
  function ConvolutionRV(X1: RV<real>, X2: RV<real>): RV<real>
    requires Convertible(X1) && Convertible(X2) && AllFinite(X1.support) && AllFinite(X2.support)
  {
    var m := ConvolutionOf(AtomsOf(X1), PdfOf(X1).func, AtomsOf(X2), PdfOf(X2).func);
    RV(m.probs, Embed(m.keys), FType(Discrete, Pdf))
  }

  /** The mean of the convolution of two discrete pmfs is the sum of their
      means. */
  lemma {:induction false} ConvolutionMeanIsSum(X1: RV<real>, X2: RV<real>)
    requires Convertible(X1) && Convertible(X2) && AllFinite(X1.support) && AllFinite(X2.support)
    requires Sum(PdfOf(X1).func) == 1.0 && Sum(PdfOf(X2).func) == 1.0
    ensures Convertible(ConvolutionRV(X1, X2)) && AllFinite(ConvolutionRV(X1, X2).support)
    ensures MeanOf(ConvolutionRV(X1, X2)) == MeanOf(X1) + MeanOf(X2)
  {
    ConvolutionRVMean(X1, X2);
    MeanOfAtoms(X1);
    MeanOfAtoms(X2);
    ConvolutionMoment(AtomsOf(X1), PdfOf(X1).func, AtomsOf(X2), PdfOf(X2).func);
    UnitMasses(Dot(ConvolutionOf(AtomsOf(X1), PdfOf(X1).func, AtomsOf(X2), PdfOf(X2).func).keys,
                   ConvolutionOf(AtomsOf(X1), PdfOf(X1).func, AtomsOf(X2), PdfOf(X2).func).probs),
               Sum(PdfOf(X2).func), Dot(AtomsOf(X1), PdfOf(X1).func), Dot(AtomsOf(X2), PdfOf(X2).func),
               Sum(PdfOf(X1).func));
  }

  lemma {:induction false} UnitMasses(d: real, s2: real, d1: real, d2: real, s1: real)
    requires d == s2 * d1 + d2 * s1 && s1 == 1.0 && s2 == 1.0
    ensures d == d1 + d2
  {
  }

  /** The mean of a discrete RV is the weighted sum of its atoms. */
  lemma {:induction false} MeanOfAtoms(X: RV<real>)
    requires Convertible(X) && AllFinite(X.support)
    ensures |AtomsOf(X)| == |PdfOf(X).func|
    ensures MeanOf(X) == Dot(AtomsOf(X), PdfOf(X).func)
  {
    ConversionsWellFormed(X);
  }

  /** The RV of the discrete branch is a pdf whose mean is the weighted sum
      of the merged lists. */
  lemma {:induction false} ConvolutionRVMean(X1: RV<real>, X2: RV<real>)
    requires Convertible(X1) && Convertible(X2) && AllFinite(X1.support) && AllFinite(X2.support)
    ensures Convertible(ConvolutionRV(X1, X2)) && AllFinite(ConvolutionRV(X1, X2).support)
    ensures var m := ConvolutionOf(AtomsOf(X1), PdfOf(X1).func, AtomsOf(X2), PdfOf(X2).func);
      |m.keys| == |m.probs| && MeanOf(ConvolutionRV(X1, X2)) == Dot(m.keys, m.probs)
  {
    var a1, f1, a2, f2 := AtomsOf(X1), PdfOf(X1).func, AtomsOf(X2), PdfOf(X2).func;
    var m := ConvolutionOf(a1, f1, a2, f2);
    ConversionsWellFormed(X1);
    ConversionsWellFormed(X2);
    ConvolutionDistribution(a1, f1, a2, f2);
    EmbedIncreasing(m.keys);
    assert Convertible(ConvolutionRV(X1, X2));
    assert Values(ConvolutionRV(X1, X2).support) == m.keys;
  }

  /** Both supports are [0, oo] with one segment each: the lifetime case,
      integrated symbolically. */
  predicate Lifetime(X1: RV<real>, X2: RV<real>) {
    && X1.support == [Finite(0.0), PosInf] && |X1.func| == 1
    && X2.support == [Finite(0.0), PosInf] && |X2.func| == 1
  }

  /** The continuous forms whose PDF returns: a pdf as it is, a cdf by
      differentiation, an hf or chf by integration. For any other form PDF
      calls CDF, whose sf test compares the kind with 'sf', so CDF calls PDF
      back without end. */
  predicate PdfReturns(X: RV<real>) {
    X.ftype.form in {Pdf, Cdf, Hf, Chf}
  }

  /** Convolution(RVar1, RVar2): the kinds must agree; two discrete RVs give
      the merged sums; two continuous RVs that are not the lifetime case fall
      through both branches and give None. (An RV of any other kind cannot be
      built.) */
  method Convolution(X1: RV<real>, X2: RV<real>) returns (r: Option<Result<RV<real>>>)
    requires X1.ftype.kind == X2.ftype.kind ==> KnownKind(X1.ftype.kind)
    requires X1.ftype.kind == X2.ftype.kind == Discrete ==>
      Convertible(X1) && Convertible(X2) && AllFinite(X1.support) && AllFinite(X2.support)
    requires X1.ftype.kind == X2.ftype.kind == Continuous ==> PdfReturns(X1) && PdfReturns(X2)
    requires X1.ftype.kind == X2.ftype.kind == Continuous ==> !Lifetime(X1, X2)
    ensures X1.ftype.kind != X2.ftype.kind ==> r == Some(Err(KindMismatch))
    ensures X1.ftype.kind == X2.ftype.kind == Continuous ==> r == None
    ensures X1.ftype.kind == X2.ftype.kind == Discrete ==> r == Some(Ok(ConvolutionRV(X1, X2)))
  {
    if X1.ftype.kind != X2.ftype.kind {
      return Some(Err(KindMismatch));
    }
    if X1.ftype.kind == Continuous {
      return None;
    }
    var p1 := PDF(X1, Symbol);
    var p2 := PDF(X2, Symbol);
    var d1, d2 := p1.value.rv, p2.value.rv;
    ConversionsWellFormed(X1);
    ConversionsWellFormed(X2);
    var m := MergedSums(Values(d1.support), d1.func, Values(d2.support), d2.func);
    var y := NewRV(Segments(m.probs), Breakpoints(Embed(m.keys)), FType(Discrete, Pdf));
    r := Some(y);
  }

  /** The discrete body of Convolution: the cross lists, the sort of their
      pairs, the unzip and the merge of repeated sums. */
  method MergedSums(a1: seq<real>, f1: seq<real>, a2: seq<real>, f2: seq<real>) returns (m: Merged)
    requires |a1| == |f1| && |a2| == |f2|
    ensures m == ConvolutionOf(a1, f1, a2, f2)
    ensures NonDecreasing(Embed(m.keys))
  {
    var convlist, funclist := CrossLists(a1, f1, a2, f2);
    LexLeIsTotalPreorder();
    var sortlist := Sort(LexLe, Zip(convlist, funclist));
    var convlist2, funclist2 := Unzip(sortlist);
    m := MergeRepeated(convlist2, funclist2);
    ConvolutionDistribution(a1, f1, a2, f2);
    EmbedIncreasing(m.keys);
  }
}
