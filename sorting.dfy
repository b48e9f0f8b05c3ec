/** The effect of Python's list.sort, as an insertion sort over any total
    preorder: the result is ordered and is a permutation of the input. */
module Sorting {
  import opened Seqs

  ghost predicate TotalPreorder<T(!new)>(le: (T, T) -> bool) {
    && (forall a, b :: le(a, b) || le(b, a))
    && (forall a, b, c :: le(a, b) && le(b, c) ==> le(a, c))
  }

  predicate SortedBy<T>(le: (T, T) -> bool, s: seq<T>) {
    forall i, j :: 0 <= i < j < |s| ==> le(s[i], s[j])
  }

  function Insert<T>(le: (T, T) -> bool, x: T, s: seq<T>): (r: seq<T>)
    ensures multiset(r) == multiset(s) + multiset{x}
    ensures |r| == |s| + 1
  {
    if s == [] then [x]
    else if le(x, s[0]) then [x] + s
    else
      assert s == [s[0]] + s[1..];
      [s[0]] + Insert(le, x, s[1..])
  }

  function Sort<T>(le: (T, T) -> bool, s: seq<T>): (r: seq<T>)
    ensures multiset(r) == multiset(s)
    ensures |r| == |s|
  {
    if s == [] then []
    else
      assert s == [s[0]] + s[1..];
      Insert(le, s[0], Sort(le, s[1..]))
  }

  lemma {:induction false} InsertSorted<T(!new)>(le: (T, T) -> bool, x: T, s: seq<T>)
    requires TotalPreorder(le) && SortedBy(le, s)
    ensures SortedBy(le, Insert(le, x, s))
    decreases |s|
  {
    if s != [] && !le(x, s[0]) {
      InsertSorted(le, x, s[1..]);
      var r := Insert(le, x, s[1..]);
      assert le(s[0], x);
      forall k | 0 <= k < |r| ensures le(s[0], r[k]) {
        assert r[k] in multiset(r);
        assert r[k] == x || r[k] in multiset(s[1..]);
        if r[k] != x {
          var j :| 1 <= j < |s| && s[j] == r[k] by {
            assert r[k] in s[1..];
          }
        }
      }
    }
  }

  lemma {:induction false} SortSorted<T(!new)>(le: (T, T) -> bool, s: seq<T>)
    requires TotalPreorder(le)
    ensures SortedBy(le, Sort(le, s))
    decreases |s|
  {
    if s != [] {
      SortSorted(le, s[1..]);
      InsertSorted(le, s[0], Sort(le, s[1..]));
    }
  }

  lemma {:induction false} InsertSumBy<T>(le: (T, T) -> bool, x: T, s: seq<T>, f: T -> real)
    ensures SumBy(Insert(le, x, s), f) == f(x) + SumBy(s, f)
    decreases |s|
  {
    if s == [] {
      assert SumBy([x], f) == SumBy([x][..0], f) + f(x);
    } else if le(x, s[0]) {
      SumByConcat([x], s, f);
      assert SumBy([x], f) == SumBy([x][..0], f) + f(x);
    } else {
      InsertSumBy(le, x, s[1..], f);
      SumByConcat([s[0]], Insert(le, x, s[1..]), f);
      SumByConcat([s[0]], s[1..], f);
      assert [s[0]] + s[1..] == s;
      assert SumBy([s[0]], f) == SumBy([s[0]][..0], f) + f(s[0]);
    }
  }

  /** Sorting changes the order of the terms of a sum, not its value. */
  lemma {:induction false} SortSumBy<T>(le: (T, T) -> bool, s: seq<T>, f: T -> real)
    ensures SumBy(Sort(le, s), f) == SumBy(s, f)
    decreases |s|
  {
    if s != [] {
      SortSumBy(le, s[1..], f);
      InsertSumBy(le, s[0], Sort(le, s[1..]), f);
      SumByConcat([s[0]], s[1..], f);
      assert [s[0]] + s[1..] == s;
      assert SumBy([s[0]], f) == SumBy([s[0]][..0], f) + f(s[0]);
    }
  }

  lemma {:induction false} SortNoDup<T>(le: (T, T) -> bool, s: seq<T>)
    requires NoDup(s)
    ensures NoDup(Sort(le, s))
  {
    var r := Sort(le, s);
    forall v ensures multiset(r)[v] <= 1 {
      MultisetNoDup(s, v);
    }
    NoDupByMultiset(r);
  }

  lemma {:induction false} MultisetNoDup<T>(s: seq<T>, v: T)
    requires NoDup(s)
    ensures multiset(s)[v] <= 1
    decreases |s|
  {
    if s != [] {
      var t := s[..|s| - 1];
      assert s == t + [s[|s| - 1]];
      MultisetNoDup(t, v);
      if s[|s| - 1] == v {
        assert v !in t;
      }
    }
  }

  lemma {:induction false} NoDupByMultiset<T>(r: seq<T>)
    requires forall v :: multiset(r)[v] <= 1
    ensures NoDup(r)
    decreases |r|
  {
    if r != [] {
      var t := r[..|r| - 1];
      assert r == t + [r[|r| - 1]];
      forall v ensures multiset(t)[v] <= 1 {
        assert multiset(r)[v] == multiset(t)[v] + multiset([r[|r| - 1]])[v];
      }
      NoDupByMultiset(t);
      assert r[|r| - 1] !in t by {
        assert multiset(r)[r[|r| - 1]] == multiset(t)[r[|r| - 1]] + 1;
      }
    }
  }
}
