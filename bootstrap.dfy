/** BootstrapRV: the empirical distribution of a list of variates. The list
    is sorted in place, then each value seen for the first time is appended
    to the support with probability (number of occurrences) / n. */
module Bootstrap {
  import opened ExtReals
  import opened Seqs
  import opened Sorting
  import opened RandomVariables

  predicate RealLe(a: real, b: real) {
    a <= b
  }

  lemma {:induction false} RealLeIsTotalPreorder()
    ensures TotalPreorder(RealLe)
  {
  }

  /** Which list the first-occurrence test of the loop looks a value up in:
      the support being built (as intended) or the list of probabilities
      (as the source is written). */
  datatype Tested = InSupport | InProbabilities

  /** The two lists the loop builds: supplist and funclist. */
  datatype Tally = Tally(supp: seq<real>, probs: seq<real>)

  /** Probability of x among the variates v: its count over their number. */
  function Share(v: seq<real>, x: real): real
    requires |v| > 0
  {
    Count(v, x) as real / |v| as real
  }

  /** The lists after the loop has visited v[..i]; the counts are taken over
      the whole of v. */
  function Tabulate(v: seq<real>, i: nat, tested: Tested): (t: Tally)
    requires i <= |v|
    ensures |t.supp| == |t.probs|
    decreases i
  {
    if i == 0 then Tally([], []) else TallyStep(Tabulate(v, i - 1, tested), v, v[i - 1], tested)
  }

  /** One pass of the loop on the variate x: a value not found by the
      first-occurrence test is appended with its share. */
  function TallyStep(t: Tally, v: seq<real>, x: real, tested: Tested): (t': Tally)
    requires |v| > 0 && |t.supp| == |t.probs|
    ensures |t'.supp| == |t'.probs|
  {
    var seen := if tested == InSupport then t.supp else t.probs;
    if x !in seen then Tally(t.supp + [x], t.probs + [Share(v, x)]) else t
  }

  /** Count(v, s[0]) + ... + Count(v, s[|s|-1]). */
  function CountsSum(s: seq<real>, v: seq<real>): nat
    decreases |s|
  {
    if s == [] then 0 else CountsSum(s[..|s| - 1], v) + Count(v, s[|s| - 1])
  }

  lemma {:induction false} DivAdd(a: real, b: real, n: real)
    requires n != 0.0
    ensures a / n + b / n == (a + b) / n
  {
  }

  lemma {:induction false} SortedPrefixBelow(v: seq<real>, i: nat, x: real)
    requires SortedBy(RealLe, v) && i < |v| && x in v[..i]
    ensures x <= v[i]
  {
    var k :| 0 <= k < i && v[..i][k] == x;
    assert RealLe(v[k], v[i]);
  }

  /** The support holds exactly the values visited so far. */
  lemma {:induction false} TabulateMembers(v: seq<real>, i: nat)
    requires i <= |v|
    ensures forall x :: x in Tabulate(v, i, InSupport).supp <==> x in v[..i]
    decreases i
  {
    if i > 0 {
      TabulateMembers(v, i - 1);
      assert v[..i] == v[..i - 1] + [v[i - 1]];
    }
  }

  /** On sorted input the support grows strictly. */
  lemma {:induction false} TabulateIncreasing(v: seq<real>, i: nat)
    requires SortedBy(RealLe, v) && i <= |v|
    ensures StrictlyIncreasing(Tabulate(v, i, InSupport).supp)
    decreases i
  {
    if i > 0 {
      TabulateIncreasing(v, i - 1);
      var s := Tabulate(v, i - 1, InSupport).supp;
      if v[i - 1] !in s {
        TabulateMembers(v, i - 1);
        NewValueAbove(v, i - 1, s);
        AppendAbove(s, v[i - 1]);
      }
    }
  }

  /** A value not yet seen in a sorted list lies above every value seen. */
  lemma {:induction false} NewValueAbove(v: seq<real>, i: nat, s: seq<real>)
    requires SortedBy(RealLe, v) && i < |v|
    requires (forall x :: x in s <==> x in v[..i]) && v[i] !in s
    ensures forall j :: 0 <= j < |s| ==> s[j] < v[i]
  {
    forall j | 0 <= j < |s| ensures s[j] < v[i] {
      SortedPrefixBelow(v, i, s[j]);
    }
  }

  /** Each support value of t carries its share of the variates v. */
  predicate SharesHold(v: seq<real>, t: Tally) {
    |t.supp| == |t.probs| && (|t.supp| > 0 ==> |v| > 0) &&
    forall k :: 0 <= k < |t.supp| ==> |v| > 0 && t.probs[k] == Share(v, t.supp[k])
  }

  lemma {:induction false} TabulateShares(v: seq<real>, i: nat)
    requires i <= |v|
    ensures SharesHold(v, Tabulate(v, i, InSupport))
    decreases i
  {
    if i > 0 {
      TabulateShares(v, i - 1);
      var t := Tabulate(v, i - 1, InSupport);
      var x := v[i - 1];
      if x !in t.supp {
        var t' := Tally(t.supp + [x], t.probs + [Share(v, x)]);
        assert Tabulate(v, i, InSupport) == t';
        forall k | 0 <= k < |t'.supp| ensures t'.probs[k] == Share(v, t'.supp[k]) {
          if k < |t.supp| {
            assert t'.probs[k] == t.probs[k] && t'.supp[k] == t.supp[k];
          }
        }
      }
    }
  }

  /** The probabilities add up to the counts of the support over n. */
  lemma {:induction false} TabulateMass(v: seq<real>, i: nat)
    requires 0 < |v| && i <= |v|
    ensures var t := Tabulate(v, i, InSupport);
      Sum(t.probs) == CountsSum(t.supp, v) as real / |v| as real
    decreases i
  {
    if i > 0 {
      TabulateMass(v, i - 1);
      var t := Tabulate(v, i - 1, InSupport);
      if v[i - 1] !in t.supp {
        MassStep(t.supp, t.probs, v, v[i - 1]);
      }
    }
  }

  /** Appending a value with its share keeps the mass equal to counts / n. */
  lemma {:induction false} MassStep(s: seq<real>, f: seq<real>, v: seq<real>, x: real)
    requires 0 < |v| && Sum(f) == CountsSum(s, v) as real / |v| as real
    ensures Sum(f + [Share(v, x)]) == CountsSum(s + [x], v) as real / |v| as real
  {
    var s', f' := s + [x], f + [Share(v, x)];
    assert s'[..|s|] == s && f'[..|f|] == f;
    assert CountsSum(s', v) == CountsSum(s, v) + Count(v, x);
    assert Sum(f') == Sum(f) + Share(v, x);
    DivAdd(CountsSum(s, v) as real, Count(v, x) as real, |v| as real);
  }

  lemma {:induction false} CountsSumOfEmpty(s: seq<real>)
    ensures CountsSum(s, []) == 0
    decreases |s|
  {
    if s != [] {
      CountsSumOfEmpty(s[..|s| - 1]);
    }
  }

  /** Appending y to v adds one to the count of each list element equal to y. */
  lemma {:induction false} CountsSumSnoc(s: seq<real>, v: seq<real>, y: real)
    ensures CountsSum(s, v + [y]) == CountsSum(s, v) + Count(s, y)
    decreases |s|
  {
    if s != [] {
      var z := s[|s| - 1];
      CountsSumSnoc(s[..|s| - 1], v, y);
      assert (v + [y])[..|v|] == v;
      assert Count(v + [y], z) == Count(v, z) + (if y == z then 1 else 0);
    }
  }

  lemma {:induction false} CountOfUnique(s: seq<real>, y: real)
    requires StrictlyIncreasing(s) && y in s
    ensures Count(s, y) == 1
    decreases |s|
  {
    var t := s[..|s| - 1];
    if s[|s| - 1] == y {
      assert y !in t;
      CountAbsent(t, y);
    } else {
      assert y in t;
      CountOfUnique(t, y);
    }
  }

  lemma {:induction false} CountAbsent(s: seq<real>, y: real)
    requires y !in s
    ensures Count(s, y) == 0
    decreases |s|
  {
    if s != [] {
      assert s[..|s| - 1] <= s;
      CountAbsent(s[..|s| - 1], y);
    }
  }

  /** Counting every distinct value of v once counts every element of v once. */
  lemma {:induction false} CountsSumCovers(s: seq<real>, v: seq<real>)
    requires StrictlyIncreasing(s) && forall x :: x in v ==> x in s
    ensures CountsSum(s, v) == |v|
    decreases |v|
  {
    if v == [] {
      CountsSumOfEmpty(s);
    } else {
      var u, y := v[..|v| - 1], v[|v| - 1];
      assert v == u + [y];
      CountsSumCovers(s, u);
      CountsSumSnoc(s, u, y);
      CountOfUnique(s, y);
    }
  }

  /** For a sorted list of variates the corrected loop yields each distinct
      variate once, in strictly increasing order, with probability count/n;
      the probabilities of a non-empty list add up to 1. */
  lemma {:induction false} BootstrapDistribution(v: seq<real>)
    requires SortedBy(RealLe, v)
    ensures var t := Tabulate(v, |v|, InSupport);
      && StrictlyIncreasing(t.supp)
      && (forall x :: x in t.supp <==> x in v)
      && SharesHold(v, t)
      && (|v| > 0 ==> Sum(t.probs) == 1.0)
  {
    var t := Tabulate(v, |v|, InSupport);
    TabulateMembers(v, |v|);
    TabulateIncreasing(v, |v|);
    TabulateShares(v, |v|);
    assert v[..|v|] == v;
    if |v| > 0 {
      TabulateMass(v, |v|);
      CountsSumCovers(t.supp, v);
      DivSelf(Sum(t.probs), |v| as real);
    }
  }

  lemma {:induction false} DivSelf(m: real, n: real)
    requires n != 0.0 && m == n / n
    ensures m == 1.0
  {
  }

  /** As written, a variate equal to an earlier probability is dropped:
      of the variates 0.1 and 0.5 only 0.1 is kept, and the mass is 1/2. */
  lemma {:induction false} AsWrittenDropsVariate()
    ensures Tabulate([0.1, 0.5], 2, InProbabilities) == Tally([0.1], [0.5])
    ensures Tabulate([0.1, 0.5], 2, InSupport) == Tally([0.1, 0.5], [0.5, 0.5])
  {
    var v := [0.1, 0.5];
    assert v[..1] == [0.1] && v[..0] == [];
    assert Count(v, 0.1) == 1 && Count(v, 0.5) == 1;
    assert Tabulate(v, 1, InProbabilities) == Tally([0.1], [0.5]);
    assert Tabulate(v, 1, InSupport) == Tally([0.1], [0.5]);
  }

  /** As written, a repeated variate is kept once per occurrence: the
      variates 2.0, 2.0 give the support [2.0, 2.0] with total mass 2. */
  lemma {:induction false} AsWrittenRepeatsVariate()
    ensures Tabulate([2.0, 2.0], 2, InProbabilities) == Tally([2.0, 2.0], [1.0, 1.0])
    ensures Tabulate([2.0, 2.0], 2, InSupport) == Tally([2.0], [1.0])
  {
    var v := [2.0, 2.0];
    assert v[..1] == [2.0] && v[..0] == [];
    assert Count(v, 2.0) == 2;
    assert Tabulate(v, 1, InProbabilities) == Tally([2.0], [1.0]);
    assert Tabulate(v, 1, InSupport) == Tally([2.0], [1.0]);
  }

  /** varlist.sort(): the array ends up holding its old contents in order. */
  method SortInPlace(a: array<real>)
    modifies a
    ensures a[..] == Sort(RealLe, old(a[..]))
  {
    var sorted := Sort(RealLe, a[..]);
    for i := 0 to a.Length
      invariant forall k :: 0 <= k < i ==> a[k] == sorted[k]
    {
      a[i] := sorted[i];
    }
  }

  /** The loop of BootstrapRV, with the first-occurrence test made against
      the support. */
  method TallyLoop(varlist: array<real>) returns (supplist: seq<real>, funclist: seq<real>)
    ensures Tally(supplist, funclist) == Tabulate(varlist[..], varlist.Length, InSupport)
  {
    var v := varlist[..];
    var numel := varlist.Length;
    funclist := [];
    supplist := [];
    for i := 0 to varlist.Length
      invariant Tally(supplist, funclist) == Tabulate(v, i, InSupport)
    {
      if varlist[i] !in supplist {
        supplist := supplist + [varlist[i]];
        funclist := funclist + [Count(v, varlist[i]) as real / numel as real];
        assert Count(v, varlist[i]) as real / numel as real == Share(v, v[i]);
      }
    }
  }

  /** BootstrapRV with the first-occurrence test made against the support. */
  method BootstrapRV(varlist: array<real>) returns (r: Result<RV<real>>)
    modifies varlist
    ensures varlist[..] == Sort(RealLe, old(varlist[..]))
    ensures var t := Tabulate(varlist[..], varlist.Length, InSupport);
      r == Ok(RV(t.probs, Embed(t.supp), FType(Discrete, Pdf)))
  {
    SortInPlace(varlist);
    RealLeIsTotalPreorder();
    SortSorted(RealLe, old(varlist[..]));
    var v := varlist[..];
    var supplist, funclist := TallyLoop(varlist);
    BootstrapDistribution(v);
    EmbedIncreasing(supplist);
    r := NewRV(Segments(funclist), Breakpoints(Embed(supplist)), FType(Discrete, Pdf));
  }
}
