/** Sums, filters and the stable sort, with the permutation facts about them. */
module Sequences {

  // ------------------------------------------------------------------ sums

  function SumOver<T>(xs: seq<T>, f: T -> int): int {
    if |xs| == 0 then 0 else SumOver(xs[..|xs| - 1], f) + f(xs[|xs| - 1])
  }

  lemma {:induction false} SumAppend<T>(xs: seq<T>, ys: seq<T>, f: T -> int)
    ensures SumOver(xs + ys, f) == SumOver(xs, f) + SumOver(ys, f)
  {
    if |ys| == 0 {
      assert xs + ys == xs;
    } else {
      SumAppend(xs, ys[..|ys| - 1], f);
      assert (xs + ys)[..|xs + ys| - 1] == xs + ys[..|ys| - 1];
    }
  }

  lemma SumSnoc<T>(xs: seq<T>, x: T, f: T -> int)
    ensures SumOver(xs + [x], f) == SumOver(xs, f) + f(x)
  {
    assert (xs + [x])[..|xs|] == xs;
  }

  lemma SoleSum<T>(xs: seq<T>, f: T -> int)
    requires |xs| == 1
    ensures SumOver(xs, f) == f(xs[0])
  {
    assert xs[..0] == [];
  }

  lemma SumCons<T>(x: T, xs: seq<T>, f: T -> int)
    ensures SumOver([x] + xs, f) == f(x) + SumOver(xs, f)
  {
    SumAppend([x], xs, f);
    assert [x][..0] == [];
  }

  lemma SumTake<T>(xs: seq<T>, i: nat, f: T -> int)
    requires i < |xs|
    ensures SumOver(xs[..i + 1], f) == SumOver(xs[..i], f) + f(xs[i])
  {
    assert xs[..i + 1][..i] == xs[..i];
  }

  lemma {:induction false} SumCong<T>(xs: seq<T>, f: T -> int, g: T -> int)
    requires forall i :: 0 <= i < |xs| ==> f(xs[i]) == g(xs[i])
    ensures SumOver(xs, f) == SumOver(xs, g)
  {
    if |xs| > 0 {
      SumCong(xs[..|xs| - 1], f, g);
    }
  }

  lemma {:induction false} SumZero<T>(xs: seq<T>, f: T -> int)
    requires forall i :: 0 <= i < |xs| ==> f(xs[i]) == 0
    ensures SumOver(xs, f) == 0
  {
    if |xs| > 0 {
      SumZero(xs[..|xs| - 1], f);
    }
  }

  lemma {:induction false} SumNonNeg<T>(xs: seq<T>, f: T -> int)
    requires forall i :: 0 <= i < |xs| ==> f(xs[i]) >= 0
    ensures SumOver(xs, f) >= 0
    ensures forall i :: 0 <= i < |xs| ==> f(xs[i]) <= SumOver(xs, f)
  {
    if |xs| > 0 {
      SumNonNeg(xs[..|xs| - 1], f);
      forall i | 0 <= i < |xs| ensures f(xs[i]) <= SumOver(xs, f) {
        if i < |xs| - 1 {
          assert xs[i] == xs[..|xs| - 1][i];
        }
      }
    }
  }

  lemma {:induction false} SumMono<T>(xs: seq<T>, f: T -> int, g: T -> int)
    requires forall i :: 0 <= i < |xs| ==> f(xs[i]) <= g(xs[i])
    ensures SumOver(xs, f) <= SumOver(xs, g)
  {
    if |xs| > 0 {
      SumMono(xs[..|xs| - 1], f, g);
    }
  }

  lemma SumUpdate<T>(xs: seq<T>, i: nat, x: T, f: T -> int)
    requires i < |xs|
    ensures SumOver(xs[i := x], f) == SumOver(xs, f) - f(xs[i]) + f(x)
  {
    assert xs == xs[..i] + ([xs[i]] + xs[i + 1..]);
    assert xs[i := x] == xs[..i] + ([x] + xs[i + 1..]);
    SumAppend(xs[..i], [xs[i]] + xs[i + 1..], f);
    SumAppend(xs[..i], [x] + xs[i + 1..], f);
    SumCons(xs[i], xs[i + 1..], f);
    SumCons(x, xs[i + 1..], f);
  }

  /** A sum does not depend on the order of its terms. */
  lemma {:induction false} SumPermutation<T>(xs: seq<T>, ys: seq<T>, f: T -> int)
    requires multiset(xs) == multiset(ys)
    ensures SumOver(xs, f) == SumOver(ys, f)
    decreases |xs|
  {
    if |xs| == 0 {
      assert |multiset(ys)| == 0;
    } else {
      var x := xs[|xs| - 1];
      assert x in multiset(ys);
      var i :| 0 <= i < |ys| && ys[i] == x;
      MultisetSplit(xs, |xs| - 1);
      assert xs[..|xs| - 1] + xs[|xs|..] == xs[..|xs| - 1];
      MultisetSplit(ys, i);
      SumPermutation(xs[..|xs| - 1], ys[..i] + ys[i + 1..], f);
      SumSplit(ys, i, f);
    }
  }

  lemma MultisetSplit<T>(xs: seq<T>, i: nat)
    requires i < |xs|
    ensures multiset(xs[..i] + xs[i + 1..]) == multiset(xs) - multiset{xs[i]}
  {
    assert xs == xs[..i] + ([xs[i]] + xs[i + 1..]);
    assert multiset(xs) == multiset(xs[..i]) + (multiset{xs[i]} + multiset(xs[i + 1..]));
  }

  lemma SumSplit<T>(xs: seq<T>, i: nat, f: T -> int)
    requires i < |xs|
    ensures SumOver(xs, f) == SumOver(xs[..i] + xs[i + 1..], f) + f(xs[i])
  {
    assert xs == xs[..i] + ([xs[i]] + xs[i + 1..]);
    SumAppend(xs[..i], xs[i + 1..], f);
    SumAppend(xs[..i], [xs[i]] + xs[i + 1..], f);
    SumCons(xs[i], xs[i + 1..], f);
  }

  // --------------------------------------------------------------- filters

  function Filter<T>(xs: seq<T>, p: T -> bool): (r: seq<T>)
    ensures |r| <= |xs|
    ensures forall i :: 0 <= i < |r| ==> p(r[i]) && r[i] in xs
    ensures forall i :: 0 <= i < |xs| && p(xs[i]) ==> xs[i] in r
  {
    if |xs| == 0 then []
    else
      var init := Filter(xs[..|xs| - 1], p);
      if p(xs[|xs| - 1]) then init + [xs[|xs| - 1]] else init
  }

  lemma FilterOne<T>(x: T, p: T -> bool)
    ensures Filter([x], p) == if p(x) then [x] else []
  {
    assert [x][..0] == [];
  }

  lemma FilterSnoc<T>(xs: seq<T>, x: T, p: T -> bool)
    ensures Filter(xs + [x], p) == if p(x) then Filter(xs, p) + [x] else Filter(xs, p)
  {
    assert (xs + [x])[..|xs|] == xs;
  }

  lemma {:induction false} FilterPermutation<T>(xs: seq<T>, ys: seq<T>, p: T -> bool)
    requires multiset(xs) == multiset(ys)
    ensures multiset(Filter(xs, p)) == multiset(Filter(ys, p))
  {
    forall x
      ensures multiset(Filter(xs, p))[x] == multiset(Filter(ys, p))[x]
    {
      FilterCount(xs, p, x);
      FilterCount(ys, p, x);
    }
  }

  lemma {:induction false} FilterCount<T>(xs: seq<T>, p: T -> bool, x: T)
    ensures multiset(Filter(xs, p))[x] == if p(x) then multiset(xs)[x] else 0
  {
    if |xs| > 0 {
      FilterCount(xs[..|xs| - 1], p, x);
      assert xs == xs[..|xs| - 1] + [xs[|xs| - 1]];
    }
  }

  lemma {:induction false} FilterFilter<T>(xs: seq<T>, p: T -> bool, q: T -> bool, both: T -> bool)
    requires forall x :: x in xs ==> both(x) == (p(x) && q(x))
    ensures Filter(Filter(xs, p), q) == Filter(xs, both)
  {
    if |xs| > 0 {
      var init, last := xs[..|xs| - 1], xs[|xs| - 1];
      FilterFilter(init, p, q, both);
      if p(last) {
        FilterSnoc(Filter(init, p), last, q);
      }
    }
  }

  /** Summing over a filtered list is summing a masked term over the whole list. */
  lemma {:induction false} SumFilter<T>(xs: seq<T>, p: T -> bool, f: T -> int, masked: T -> int)
    requires forall i :: 0 <= i < |xs| ==> masked(xs[i]) == if p(xs[i]) then f(xs[i]) else 0
    ensures SumOver(Filter(xs, p), f) == SumOver(xs, masked)
  {
    if |xs| > 0 {
      SumFilter(xs[..|xs| - 1], p, f, masked);
      if p(xs[|xs| - 1]) {
        SumSnoc(Filter(xs[..|xs| - 1], p), xs[|xs| - 1], f);
      }
    }
  }

  // ------------------------------------------------------------------ sort

  /** Insert x behind everything that may stand before it: ties keep their order. */
  function Insert<T>(ys: seq<T>, x: T, le: (T, T) -> bool): seq<T> {
    if |ys| == 0 then [x]
    else if le(ys[0], x) then [ys[0]] + Insert(ys[1..], x, le)
    else [x] + ys
  }

  /** The stable sort. */
  function Sort<T>(xs: seq<T>, le: (T, T) -> bool): seq<T> {
    if |xs| == 0 then [] else Insert(Sort(xs[..|xs| - 1], le), xs[|xs| - 1], le)
  }

  lemma SortOne<T>(x: T, le: (T, T) -> bool)
    ensures Sort([x], le) == [x]
  {
    assert [x][..0] == [];
  }

  ghost predicate Sorted<T>(xs: seq<T>, le: (T, T) -> bool) {
    forall i, j :: 0 <= i < j < |xs| ==> le(xs[i], xs[j])
  }

  ghost predicate TotalPreorder<T(!new)>(le: (T, T) -> bool) {
    && (forall x, y :: le(x, y) || le(y, x))
    && (forall x, y, z :: le(x, y) && le(y, z) ==> le(x, z))
  }

  lemma {:induction false} InsertPermutes<T>(ys: seq<T>, x: T, le: (T, T) -> bool)
    ensures multiset(Insert(ys, x, le)) == multiset(ys) + multiset{x}
  {
    if |ys| > 0 {
      assert ys == [ys[0]] + ys[1..];
      InsertPermutes(ys[1..], x, le);
    }
  }

  lemma {:induction false} SortPermutes<T>(xs: seq<T>, le: (T, T) -> bool)
    ensures multiset(Sort(xs, le)) == multiset(xs)
    ensures |Sort(xs, le)| == |xs|
  {
    if |xs| > 0 {
      SortPermutes(xs[..|xs| - 1], le);
      InsertPermutes(Sort(xs[..|xs| - 1], le), xs[|xs| - 1], le);
      assert xs == xs[..|xs| - 1] + [xs[|xs| - 1]];
    }
    assert |multiset(Sort(xs, le))| == |multiset(xs)|;
  }

  lemma ConsSorted<T>(y: T, r: seq<T>, le: (T, T) -> bool)
    requires Sorted(r, le) && forall j :: 0 <= j < |r| ==> le(y, r[j])
    ensures Sorted([y] + r, le)
  {}

  lemma InsertMember<T>(ys: seq<T>, x: T, le: (T, T) -> bool, j: nat)
    requires j < |Insert(ys, x, le)|
    ensures Insert(ys, x, le)[j] == x || Insert(ys, x, le)[j] in ys
  {
    hide Insert;
    InsertPermutes(ys, x, le);
    assert Insert(ys, x, le)[j] in multiset(Insert(ys, x, le));
  }

  lemma {:induction false} InsertSorted<T(!new)>(ys: seq<T>, x: T, le: (T, T) -> bool)
    requires TotalPreorder(le) && Sorted(ys, le)
    ensures Sorted(Insert(ys, x, le), le)
  {
    if |ys| > 0 {
      if le(ys[0], x) {
        InsertSorted(ys[1..], x, le);
        var r := Insert(ys[1..], x, le);
        forall j | 0 <= j < |r|
          ensures le(ys[0], r[j])
        {
          InsertMember(ys[1..], x, le, j);
        }
        ConsSorted(ys[0], r, le);
      } else {
        ConsSorted(x, ys, le);
      }
    }
  }

  lemma {:induction false} SortSorted<T(!new)>(xs: seq<T>, le: (T, T) -> bool)
    requires TotalPreorder(le)
    ensures Sorted(Sort(xs, le), le)
  {
    if |xs| > 0 {
      SortSorted(xs[..|xs| - 1], le);
      InsertSorted(Sort(xs[..|xs| - 1], le), xs[|xs| - 1], le);
    }
  }

  /** Where ties cannot happen, only one arrangement is sorted. */
  lemma {:induction false} SortedUnique<T>(xs: seq<T>, ys: seq<T>, le: (T, T) -> bool)
    requires Sorted(xs, le) && Sorted(ys, le) && multiset(xs) == multiset(ys)
    requires forall x, y :: x in xs && y in xs && le(x, y) && le(y, x) ==> x == y
    ensures xs == ys
    decreases |xs|
  {
    assert |multiset(xs)| == |multiset(ys)|;
    if |xs| > 0 {
      SortedHeads(xs, ys, le);
      TailMultiset(xs);
      TailMultiset(ys);
      SortedUnique(xs[1..], ys[1..], le);
    }
  }

  lemma SortedHeads<T>(xs: seq<T>, ys: seq<T>, le: (T, T) -> bool)
    requires Sorted(xs, le) && Sorted(ys, le) && multiset(xs) == multiset(ys)
    requires forall x, y :: x in xs && y in xs && le(x, y) && le(y, x) ==> x == y
    requires |xs| == |ys| > 0
    ensures xs[0] == ys[0]
  {
    assert xs[0] in multiset(ys) && ys[0] in multiset(xs);
    var i :| 0 <= i < |ys| && ys[i] == xs[0];
    var j :| 0 <= j < |xs| && xs[j] == ys[0];
    assert i == 0 || le(ys[0], ys[i]);
    assert j == 0 || le(xs[0], xs[j]);
  }

  lemma TailMultiset<T>(xs: seq<T>)
    requires |xs| > 0
    ensures multiset(xs[1..]) == multiset(xs) - multiset{xs[0]}
  {
    assert xs == [xs[0]] + xs[1..];
    assert multiset(xs) == multiset{xs[0]} + multiset(xs[1..]);
  }

  // ----------------------------------------------------------- distinctness

  ghost predicate DistinctBy<T>(xs: seq<T>, key: T -> int) {
    forall i, j :: 0 <= i < j < |xs| ==> key(xs[i]) != key(xs[j])
  }

  lemma {:induction false} RepeatedElement<T>(xs: seq<T>, x: T)
    requires multiset(xs)[x] >= 2
    ensures exists i, j :: 0 <= i < j < |xs| && xs[i] == x && xs[j] == x
  {
    var init, last := xs[..|xs| - 1], xs[|xs| - 1];
    assert xs == init + [last];
    if last == x {
      assert x in multiset(init);
      var i :| 0 <= i < |init| && init[i] == x;
      assert xs[i] == x && xs[|xs| - 1] == x;
    } else {
      RepeatedElement(init, x);
      var i, j :| 0 <= i < j < |init| && init[i] == x && init[j] == x;
      assert xs[i] == x && xs[j] == x;
    }
  }

  lemma DistinctPermutation<T>(xs: seq<T>, ys: seq<T>, key: T -> int)
    requires multiset(xs) == multiset(ys) && DistinctBy(xs, key)
    ensures DistinctBy(ys, key)
  {
    forall i, j | 0 <= i < j < |ys|
      ensures key(ys[i]) != key(ys[j])
    {
      if key(ys[i]) == key(ys[j]) {
        assert ys[i] in multiset(xs) && ys[j] in multiset(xs);
        assert ys[i] == ys[j];
        assert ys == ys[..i] + ([ys[i]] + (ys[i + 1..j] + ([ys[j]] + ys[j + 1..])));
        RepeatedElement(xs, ys[i]);
      }
    }
  }

  lemma {:induction false} DistinctFilter<T>(xs: seq<T>, p: T -> bool, key: T -> int)
    requires DistinctBy(xs, key)
    ensures DistinctBy(Filter(xs, p), key)
  {
    if |xs| > 0 {
      DistinctFilter(xs[..|xs| - 1], p, key);
    }
  }
}
