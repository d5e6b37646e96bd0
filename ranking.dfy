/**
 * Ranking of the batteries (batteryFillStateSort): a bubble sort of the
 * 1-based battery numbers by descending SoC, followed by a second bubble
 * sort that pushes every Missing battery to the end.
 *
 * Both sorts run the same loop shape and differ only in the swap test, so
 * one pass function is parameterised by the test. The properties are proved
 * for any number of batteries.
 */
module Ranking {
  import opened Types

  /** The swap test of one of the two sorts. */
  datatype Order =
    | BySoc(socs: seq<int>)          // swap when the left battery has the lower SoC
    | MissingLast(missing: seq<bool>) // swap when the left battery is Missing

  function Size(o: Order): nat
  {
    match o
    case BySoc(socs) => |socs|
    case MissingLast(missing) => |missing|
  }

  /** The battery numbers 1..n in index order: the list before sorting. */
  function Ids(n: nat): (r: seq<int>)
    ensures |r| == n && forall k | 0 <= k < n :: r[k] == k + 1
  {
    seq(n, k => k + 1)
  }

  predicate ValidIds(a: seq<int>, n: int)
  {
    forall k | 0 <= k < |a| :: 1 <= a[k] <= n
  }

  function SocOf(socs: seq<int>, id: int): int
    requires 1 <= id <= |socs|
  {
    socs[id - 1]
  }

  predicate IsMissing(missing: seq<bool>, id: int)
    requires 1 <= id <= |missing|
  {
    missing[id - 1]
  }

  predicate ShouldSwap(o: Order, x: int, y: int)
    requires 1 <= x <= Size(o) && 1 <= y <= Size(o)
  {
    match o
    case BySoc(socs) => SocOf(socs, x) < SocOf(socs, y)
    case MissingLast(missing) => IsMissing(missing, x)
  }

  function Swap(a: seq<int>, k: int): (r: seq<int>)
    requires 0 <= k < |a| - 1
    ensures |r| == |a| && r[k] == a[k + 1] && r[k + 1] == a[k]
    ensures forall p | 0 <= p < |a| && p != k && p != k + 1 :: r[p] == a[p]
  {
    a[k := a[k + 1]][k + 1 := a[k]]
  }

  /** Swapping inside a prefix permutes the prefix and leaves the rest alone. */
  lemma SwapPrefix(a: seq<int>, k: int, m: int)
    requires 0 <= k < k + 1 < m <= |a|
    ensures multiset(Swap(a, k)[..m]) == multiset(a[..m])
    ensures Swap(a, k)[m..] == a[m..]
  {
    var r := Swap(a, k);
    assert r[..m] == a[..m][k := a[k + 1]][k + 1 := a[k]];
  }

  /** One compare-and-swap of the inner loop at position k. */
  function Step(a: seq<int>, k: int, o: Order): (r: seq<int>)
    requires 0 <= k < |a| - 1 && ValidIds(a, Size(o))
    ensures |r| == |a| && ValidIds(r, Size(o))
  {
    if ShouldSwap(o, a[k], a[k + 1]) then Swap(a, k) else a
  }

  /** The inner loop run for positions 0..j-1. */
  function Pass(a: seq<int>, j: int, o: Order): (r: seq<int>)
    requires 0 <= j < |a| && ValidIds(a, Size(o))
    ensures |r| == |a| && ValidIds(r, Size(o))
    decreases j
  {
    if j == 0 then a else Step(Pass(a, j - 1, o), j - 1, o)
  }

  /** The outer loop after i passes; pass p runs the inner loop for positions below n-p-1. */
  function Sort(a: seq<int>, i: int, o: Order): (r: seq<int>)
    requires 0 <= i < |a| && ValidIds(a, Size(o))
    ensures |r| == |a| && ValidIds(r, Size(o))
    decreases i
  {
    if i == 0 then a else Pass(Sort(a, i - 1, o), |a| - i, o)
  }

  /** The complete ranking: the SoC sort followed by the missing-battery sort. */
  function Rank(socs: seq<int>, missing: seq<bool>): seq<int>
    requires |socs| == |missing| >= 1
  {
    var n := |socs|;
    Sort(Sort(Ids(n), n - 1, BySoc(socs)), n - 1, MissingLast(missing))
  }

  // ---------------------------------------------------------------------
  // Permutation

  lemma {:induction false} PassPermutes(a: seq<int>, j: int, o: Order)
    requires 0 <= j < |a| && ValidIds(a, Size(o))
    ensures multiset(Pass(a, j, o)[..j + 1]) == multiset(a[..j + 1])
    ensures Pass(a, j, o)[j + 1..] == a[j + 1..]
    decreases j
  {
    if j > 0 {
      var b := Pass(a, j - 1, o);
      PassPermutes(a, j - 1, o);
      assert b[..j + 1] == b[..j] + [b[j]];
      assert a[..j + 1] == a[..j] + [a[j]];
      assert b[j] == b[j..][0] == a[j..][0] == a[j];
      assert b[j + 1..] == b[j..][1..];
      if ShouldSwap(o, b[j - 1], b[j]) {
        SwapPrefix(b, j - 1, j + 1);
      }
    }
  }

  lemma PrefixPermutesWhole(a: seq<int>, b: seq<int>, m: int)
    requires |a| == |b| && 0 <= m <= |a|
    requires multiset(a[..m]) == multiset(b[..m]) && a[m..] == b[m..]
    ensures multiset(a) == multiset(b)
  {
    assert a == a[..m] + a[m..];
    assert b == b[..m] + b[m..];
  }

  /** One more outer pass: the sort after i passes is pass |a|-i applied to the sort after i-1. */
  lemma SortUnfold(a: seq<int>, i: int, o: Order)
    requires 0 < i < |a| && ValidIds(a, Size(o))
    ensures Sort(a, i, o) == Pass(Sort(a, i - 1, o), |a| - i, o)
  {
  }

  /** A pass permutes the whole list. */
  lemma PassPermutesWhole(b: seq<int>, m: int, o: Order)
    requires 0 <= m < |b| && ValidIds(b, Size(o))
    ensures multiset(Pass(b, m, o)) == multiset(b)
  {
    PassPermutes(b, m, o);
    PrefixPermutesWhole(Pass(b, m, o), b, m + 1);
  }

  lemma {:induction false} SortPermutes(a: seq<int>, i: int, o: Order)
    requires 0 <= i < |a| && ValidIds(a, Size(o))
    ensures multiset(Sort(a, i, o)) == multiset(a)
    decreases i
  {
    if i > 0 {
      SortUnfold(a, i, o);
      SortPermutes(a, i - 1, o);
      PassPermutesWhole(Sort(a, i - 1, o), |a| - i, o);
    }
  }

  /** An element before position m of a permuted prefix comes from the same prefix. */
  lemma FromPrefix(r: seq<int>, b: seq<int>, m: int, p: int) returns (pp: int)
    requires 0 <= p < m <= |r| && m <= |b| && multiset(r[..m]) == multiset(b[..m])
    ensures 0 <= pp < m && b[pp] == r[p]
  {
    assert r[..m][p] == r[p];
    assert r[p] in multiset(b[..m]);
    pp :| 0 <= pp < m && b[..m][pp] == r[p];
  }

  // ---------------------------------------------------------------------
  // The SoC sort: non-increasing SoC, ties in battery-number order

  predicate TiesInIdOrder(a: seq<int>, socs: seq<int>)
    requires ValidIds(a, |socs|)
  {
    forall p, q | 0 <= p < q < |a| && SocOf(socs, a[p]) == SocOf(socs, a[q]) :: a[p] < a[q]
  }

  /** Every element before position m has at least the SoC of every element at or after m. */
  predicate PrefixDominates(a: seq<int>, m: int, socs: seq<int>)
    requires ValidIds(a, |socs|) && 0 <= m <= |a|
  {
    forall p, q | 0 <= p < m <= q < |a| :: SocOf(socs, a[p]) >= SocOf(socs, a[q])
  }

  predicate SuffixSorted(a: seq<int>, m: int, socs: seq<int>)
    requires ValidIds(a, |socs|) && 0 <= m <= |a|
  {
    forall p, q | m <= p < q < |a| :: SocOf(socs, a[p]) >= SocOf(socs, a[q])
  }

  lemma {:induction false} StepKeepsTies(a: seq<int>, k: int, socs: seq<int>)
    requires 0 <= k < |a| - 1 && ValidIds(a, |socs|) && TiesInIdOrder(a, socs)
    ensures TiesInIdOrder(Step(a, k, BySoc(socs)), socs)
  {
    var r := Step(a, k, BySoc(socs));
    forall p, q | 0 <= p < q < |r| && SocOf(socs, r[p]) == SocOf(socs, r[q])
      ensures r[p] < r[q]
    {
      if r != a {
        var pp := if p == k then k + 1 else if p == k + 1 then k else p;
        var qq := if q == k then k + 1 else if q == k + 1 then k else q;
        assert r[p] == a[pp] && r[q] == a[qq];
      }
    }
  }

  predicate CarriesMin(r: seq<int>, j: int, socs: seq<int>)
    requires ValidIds(r, |socs|) && 0 <= j < |r|
  {
    forall p | 0 <= p <= j :: SocOf(socs, r[p]) >= SocOf(socs, r[j])
  }

  /** After the inner loop over positions 0..j-1, position j holds a lowest SoC of a[..j+1]. */
  lemma {:induction false} PassCarriesMin(a: seq<int>, j: int, socs: seq<int>)
    requires 0 <= j < |a| && ValidIds(a, |socs|)
    ensures CarriesMin(Pass(a, j, BySoc(socs)), j, socs)
    decreases j
  {
    if j > 0 {
      var o := BySoc(socs);
      PassCarriesMin(a, j - 1, socs);
      var b := Pass(a, j - 1, o);
      var r := Pass(a, j, o);
      assert r == Step(b, j - 1, o);
      assert CarriesMin(b, j - 1, socs);
      forall p | 0 <= p <= j
        ensures SocOf(socs, r[p]) >= SocOf(socs, r[j])
      {
        if p < j - 1 {
          assert r[p] == b[p];
          assert SocOf(socs, b[p]) >= SocOf(socs, b[j - 1]);
        }
      }
    }
  }

  lemma {:induction false} PassKeepsTies(a: seq<int>, j: int, socs: seq<int>)
    requires 0 <= j < |a| && ValidIds(a, |socs|) && TiesInIdOrder(a, socs)
    ensures TiesInIdOrder(Pass(a, j, BySoc(socs)), socs)
    decreases j
  {
    if j > 0 {
      PassKeepsTies(a, j - 1, socs);
      StepKeepsTies(Pass(a, j - 1, BySoc(socs)), j - 1, socs);
    }
  }

  /** After pass m, the suffix from m+1 on is what it was before the pass. */
  lemma PassLeavesTail(r: seq<int>, b: seq<int>, m: int, q: int)
    requires 0 <= m < q < |r| == |b| && r[m + 1..] == b[m + 1..]
    ensures r[q] == b[q]
  {
    assert r[q] == r[m + 1..][q - m - 1];
  }

  /** A permutation of the prefix r[..m+1] still dominates an unchanged suffix. */
  lemma PermutedPrefixDominates(r: seq<int>, b: seq<int>, m: int, socs: seq<int>)
    requires 0 <= m < |r| == |b| && ValidIds(r, |socs|) && ValidIds(b, |socs|)
    requires multiset(r[..m + 1]) == multiset(b[..m + 1]) && r[m + 1..] == b[m + 1..]
    requires PrefixDominates(b, m + 1, socs)
    ensures PrefixDominates(r, m + 1, socs)
  {
    forall p, q | 0 <= p <= m < q < |r|
      ensures SocOf(socs, r[p]) >= SocOf(socs, r[q])
    {
      var pp := FromPrefix(r, b, m + 1, p);
      PassLeavesTail(r, b, m, q);
      assert SocOf(socs, b[pp]) >= SocOf(socs, b[q]);
    }
  }

  /** A lowest SoC of the prefix at position m moves the boundary down by one. */
  lemma BoundaryDown(r: seq<int>, m: int, socs: seq<int>)
    requires 0 <= m < |r| && ValidIds(r, |socs|)
    requires CarriesMin(r, m, socs) && PrefixDominates(r, m + 1, socs) && SuffixSorted(r, m + 1, socs)
    ensures PrefixDominates(r, m, socs) && SuffixSorted(r, m, socs)
  {
    forall p, q | 0 <= p < m <= q < |r|
      ensures SocOf(socs, r[p]) >= SocOf(socs, r[q])
    {
      if q == m {
        assert SocOf(socs, r[p]) >= SocOf(socs, r[m]);
      } else {
        assert p < m + 1 <= q;
      }
    }
    forall p, q | m <= p < q < |r|
      ensures SocOf(socs, r[p]) >= SocOf(socs, r[q])
    {
      if p == m {
        assert p < m + 1 <= q;
      } else {
        assert m + 1 <= p;
      }
    }
  }

  /** Pass m keeps the sorted, dominated suffix and extends it by position m. */
  lemma PassExtendsSuffix(b: seq<int>, m: int, socs: seq<int>)
    requires 0 <= m < |b| && ValidIds(b, |socs|) && TiesInIdOrder(b, socs)
    requires PrefixDominates(b, m + 1, socs) && SuffixSorted(b, m + 1, socs)
    ensures var r := Pass(b, m, BySoc(socs));
      && TiesInIdOrder(r, socs)
      && PrefixDominates(r, m, socs)
      && SuffixSorted(r, m, socs)
  {
    var r := Pass(b, m, BySoc(socs));
    PassKeepsTies(b, m, socs);
    PassCarriesMin(b, m, socs);
    PassPermutes(b, m, BySoc(socs));
    PermutedPrefixDominates(r, b, m, socs);
    forall p, q | m + 1 <= p < q < |r|
      ensures SocOf(socs, r[p]) >= SocOf(socs, r[q])
    {
      PassLeavesTail(r, b, m, p);
      PassLeavesTail(r, b, m, q);
    }
    BoundaryDown(r, m, socs);
  }

  lemma {:induction false} SortInvariant(a: seq<int>, i: int, socs: seq<int>)
    requires 0 <= i < |a| && ValidIds(a, |socs|) && TiesInIdOrder(a, socs)
    ensures var r := Sort(a, i, BySoc(socs));
      && TiesInIdOrder(r, socs)
      && PrefixDominates(r, |a| - i, socs)
      && SuffixSorted(r, |a| - i, socs)
    decreases i
  {
    if i > 0 {
      var b := Sort(a, i - 1, BySoc(socs));
      SortInvariant(a, i - 1, socs);
      SortUnfold(a, i, BySoc(socs));
      PassExtendsSuffix(b, |a| - i, socs);
    }
  }

  /** Battery x ranks before battery y: higher SoC, or equal SoC and lower number. */
  predicate RankedBefore(socs: seq<int>, x: int, y: int)
    requires 1 <= x <= |socs| && 1 <= y <= |socs|
  {
    SocOf(socs, x) > SocOf(socs, y) || (SocOf(socs, x) == SocOf(socs, y) && x < y)
  }

  predicate InRankOrder(a: seq<int>, socs: seq<int>)
    requires ValidIds(a, |socs|)
  {
    forall p, q | 0 <= p < q < |a| :: RankedBefore(socs, a[p], a[q])
  }

  /** A list sorted by SoC whose ties are in number order is in rank order. */
  lemma SortedIsRankOrder(r: seq<int>, socs: seq<int>)
    requires |r| >= 1 && ValidIds(r, |socs|) && TiesInIdOrder(r, socs)
    requires PrefixDominates(r, 1, socs) && SuffixSorted(r, 1, socs)
    ensures InRankOrder(r, socs)
  {
    forall p, q | 0 <= p < q < |r|
      ensures RankedBefore(socs, r[p], r[q])
    {
      if p == 0 {
        assert p < 1 <= q;
      } else {
        assert 1 <= p;
      }
    }
  }

  /** Before sorting, the numbers are in increasing order, so any ties are too. */
  lemma IdsInOrder(socs: seq<int>)
    ensures ValidIds(Ids(|socs|), |socs|) && TiesInIdOrder(Ids(|socs|), socs)
  {
  }

  /** The SoC sort of 1..n lists the batteries in rank order. */
  lemma {:induction false} SocSortInRankOrder(socs: seq<int>)
    requires |socs| >= 1
    ensures var n := |socs|; InRankOrder(Sort(Ids(n), n - 1, BySoc(socs)), socs)
  {
    var n := |socs|;
    IdsInOrder(socs);
    SortInvariant(Ids(n), n - 1, socs);
    SortedIsRankOrder(Sort(Ids(n), n - 1, BySoc(socs)), socs);
  }

  // ---------------------------------------------------------------------
  // The missing-battery sort: Missing ones last, the others keep their order

  /** Every element at or after position m is Missing if any element before it is. */
  predicate MissingTail(a: seq<int>, m: int, missing: seq<bool>)
    requires ValidIds(a, |missing|)
  {
    forall p, q | 0 <= p < q < |a| && m <= q && IsMissing(missing, a[p]) :: IsMissing(missing, a[q])
  }

  predicate PresentInRankOrder(a: seq<int>, socs: seq<int>, missing: seq<bool>)
    requires |socs| == |missing| && ValidIds(a, |socs|)
  {
    forall p, q | 0 <= p < q < |a| && !IsMissing(missing, a[p]) && !IsMissing(missing, a[q]) ::
      RankedBefore(socs, a[p], a[q])
  }

  /** Position j is Missing if any position up to it is. */
  predicate CarriesMissing(r: seq<int>, j: int, missing: seq<bool>)
    requires ValidIds(r, |missing|) && 0 <= j < |r|
  {
    forall p | 0 <= p <= j && IsMissing(missing, r[p]) :: IsMissing(missing, r[j])
  }

  lemma {:induction false} MissingPassCarries(a: seq<int>, j: int, missing: seq<bool>)
    requires 0 <= j < |a| && ValidIds(a, |missing|)
    ensures CarriesMissing(Pass(a, j, MissingLast(missing)), j, missing)
    decreases j
  {
    if j > 0 {
      var o := MissingLast(missing);
      MissingPassCarries(a, j - 1, missing);
      var b := Pass(a, j - 1, o);
      var r := Pass(a, j, o);
      assert r == Step(b, j - 1, o);
      assert CarriesMissing(b, j - 1, missing);
      forall p | 0 <= p <= j && IsMissing(missing, r[p])
        ensures IsMissing(missing, r[j])
      {
        if p < j - 1 {
          assert r[p] == b[p];
          assert IsMissing(missing, b[j - 1]);
        } else if p == j - 1 && r != b {
          assert r[j - 1] == b[j];
          assert IsMissing(missing, b[j - 1]);
        }
      }
    }
  }

  lemma {:induction false} MissingPassKeepsOrder(a: seq<int>, j: int, socs: seq<int>, missing: seq<bool>)
    requires 0 <= j < |a| && |socs| == |missing| && ValidIds(a, |socs|)
    requires PresentInRankOrder(a, socs, missing)
    ensures PresentInRankOrder(Pass(a, j, MissingLast(missing)), socs, missing)
    decreases j
  {
    if j > 0 {
      var o := MissingLast(missing);
      MissingPassKeepsOrder(a, j - 1, socs, missing);
      var b := Pass(a, j - 1, o);
      var r := Pass(a, j, o);
      forall p, q | 0 <= p < q < |r| && !IsMissing(missing, r[p]) && !IsMissing(missing, r[q])
        ensures RankedBefore(socs, r[p], r[q])
      {
        if r != b {
          var k := j - 1;
          var pp := if p == k then k + 1 else if p == k + 1 then k else p;
          var qq := if q == k then k + 1 else if q == k + 1 then k else q;
          assert r[p] == b[pp] && r[q] == b[qq];
        }
      }
    }
  }

  lemma {:induction false} MissingSortKeepsOrder(a: seq<int>, i: int, socs: seq<int>, missing: seq<bool>)
    requires 0 <= i < |a| && |socs| == |missing| && ValidIds(a, |socs|)
    requires PresentInRankOrder(a, socs, missing)
    ensures PresentInRankOrder(Sort(a, i, MissingLast(missing)), socs, missing)
    decreases i
  {
    if i > 0 {
      var o := MissingLast(missing);
      MissingSortKeepsOrder(a, i - 1, socs, missing);
      MissingPassKeepsOrder(Sort(a, i - 1, o), |a| - i, socs, missing);
    }
  }

  /** One outer pass extends the Missing tail by one position. */
  lemma TailStep(b: seq<int>, r: seq<int>, m: int, missing: seq<bool>)
    requires |r| == |b| && 0 <= m < |b| && ValidIds(b, |missing|) && ValidIds(r, |missing|)
    requires MissingTail(b, m + 1, missing) && CarriesMissing(r, m, missing)
    requires multiset(r[..m + 1]) == multiset(b[..m + 1])
    requires forall q | m < q < |r| :: r[q] == b[q]
    ensures MissingTail(r, m, missing)
  {
    forall p, q | 0 <= p < q < |r| && m <= q && IsMissing(missing, r[p])
      ensures IsMissing(missing, r[q])
    {
      if q > m && p <= m {
        var pp := FromPrefix(r, b, m + 1, p);
        assert b[pp] == r[p] && r[q] == b[q] && pp < q;
      }
    }
  }

  lemma {:induction false} MissingSortTail(a: seq<int>, i: int, missing: seq<bool>)
    requires 0 <= i < |a| && ValidIds(a, |missing|)
    ensures MissingTail(Sort(a, i, MissingLast(missing)), |a| - i, missing)
    decreases i
  {
    if i > 0 {
      var o := MissingLast(missing);
      var b := Sort(a, i - 1, o);
      MissingSortTail(a, i - 1, missing);
      var m := |a| - i;
      var r := Pass(b, m, o);
      assert r == Sort(a, i, o);
      MissingPassCarries(b, m, missing);
      PassPermutes(b, m, o);
      forall q | m < q < |r|
        ensures r[q] == b[q]
      {
        assert r[q] == r[m + 1..][q - m - 1];
      }
      TailStep(b, r, m, missing);
    }
  }

  // ---------------------------------------------------------------------
  // Counting the batteries that are present

  /** Number of batteries not Missing (numBats). */
  function NumPresent(missing: seq<bool>): (c: nat)
    ensures c <= |missing|
  {
    if missing == [] then 0 else (if missing[|missing| - 1] then 0 else 1) + NumPresent(missing[..|missing| - 1])
  }

  /** Number of entries of a that name a battery that is not Missing. */
  function CountPresent(a: seq<int>, missing: seq<bool>): (c: nat)
    requires ValidIds(a, |missing|)
    ensures c <= |a|
  {
    if a == [] then 0 else (if IsMissing(missing, a[0]) then 0 else 1) + CountPresent(a[1..], missing)
  }

  lemma {:induction false} CountConcat(a: seq<int>, b: seq<int>, missing: seq<bool>)
    requires ValidIds(a, |missing|) && ValidIds(b, |missing|)
    ensures ValidIds(a + b, |missing|)
    ensures CountPresent(a + b, missing) == CountPresent(a, missing) + CountPresent(b, missing)
    decreases |a|
  {
    if a == [] {
      assert a + b == b;
    } else {
      assert (a + b)[1..] == a[1..] + b;
      assert (a + b)[0] == a[0];
      CountConcat(a[1..], b, missing);
    }
  }

  /** Removing one occurrence of a[0] from b leaves a permutation of a[1..]. */
  lemma RemoveFirst(a: seq<int>, b: seq<int>, i: int)
    requires a != [] && 0 <= i < |b| && b[i] == a[0] && multiset(a) == multiset(b)
    ensures multiset(a[1..]) == multiset(b[..i] + b[i + 1..])
  {
    var left, right := b[..i], b[i + 1..];
    assert b == left + ([b[i]] + right);
    assert a == [a[0]] + a[1..];
    assert multiset(left + right) == multiset(left) + multiset(right);
    forall y
      ensures multiset(a[1..])[y] == multiset(left + right)[y]
    {
      assert multiset(a)[y] == multiset(b)[y];
    }
  }

  /** Taking out position i of b takes its contribution out of the count. */
  lemma CountRemoveAt(b: seq<int>, i: int, missing: seq<bool>)
    requires ValidIds(b, |missing|) && 0 <= i < |b|
    ensures ValidIds(b[..i] + b[i + 1..], |missing|)
    ensures CountPresent(b, missing)
      == CountPresent(b[..i] + b[i + 1..], missing) + (if IsMissing(missing, b[i]) then 0 else 1)
  {
    var left, right := b[..i], b[i + 1..];
    CountConcat(left, right, missing);
    CountConcat([b[i]], right, missing);
    CountConcat(left, [b[i]] + right, missing);
    assert b == left + ([b[i]] + right);
  }

  lemma {:induction false} CountPermutation(a: seq<int>, b: seq<int>, missing: seq<bool>)
    requires ValidIds(a, |missing|) && ValidIds(b, |missing|) && multiset(a) == multiset(b)
    ensures CountPresent(a, missing) == CountPresent(b, missing)
    decreases |a|
  {
    if a == [] {
      assert |multiset(b)| == 0;
    } else {
      assert a[0] in multiset(b);
      var i :| 0 <= i < |b| && b[i] == a[0];
      RemoveFirst(a, b, i);
      CountRemoveAt(b, i, missing);
      CountPermutation(a[1..], b[..i] + b[i + 1..], missing);
    }
  }

  lemma {:induction false} CountIds(missing: seq<bool>)
    ensures CountPresent(Ids(|missing|), missing) == NumPresent(missing)
    decreases |missing|
  {
    var n := |missing|;
    if n > 0 {
      var init := missing[..n - 1];
      CountIds(init);
      assert Ids(n) == Ids(n - 1) + [n];
      CountConcat(Ids(n - 1), [n], missing);
      CountAgree(Ids(n - 1), init, missing);
    }
  }

  /** Counting against a prefix of the missing flags gives the same result for small numbers. */
  lemma {:induction false} CountAgree(a: seq<int>, init: seq<bool>, missing: seq<bool>)
    requires |init| <= |missing| && init == missing[..|init|] && ValidIds(a, |init|)
    ensures ValidIds(a, |missing|) && CountPresent(a, init) == CountPresent(a, missing)
    decreases |a|
  {
    if a != [] {
      CountAgree(a[1..], init, missing);
    }
  }

  /** With Missing batteries at the tail, the present ones fill exactly the first CountPresent positions. */
  lemma {:induction false} TailSplit(a: seq<int>, missing: seq<bool>)
    requires ValidIds(a, |missing|) && MissingTail(a, 0, missing)
    ensures forall p | 0 <= p < |a| :: (p < CountPresent(a, missing)) == !IsMissing(missing, a[p])
    decreases |a|
  {
    if a != [] {
      var t := a[1..];
      assert MissingTail(t, 0, missing) by {
        forall p, q | 0 <= p < q < |t| && IsMissing(missing, t[p])
          ensures IsMissing(missing, t[q])
        {
          assert t[p] == a[p + 1] && t[q] == a[q + 1];
        }
      }
      TailSplit(t, missing);
      if IsMissing(missing, a[0]) {
        assert forall q | 0 < q < |a| :: IsMissing(missing, a[q]);
        AllMissingCountsZero(t, missing);
      }
      forall p | 0 <= p < |a|
        ensures (p < CountPresent(a, missing)) == !IsMissing(missing, a[p])
      {
        if p > 0 {
          assert a[p] == t[p - 1];
        }
      }
    }
  }

  lemma {:induction false} AllMissingCountsZero(a: seq<int>, missing: seq<bool>)
    requires ValidIds(a, |missing|) && forall q | 0 <= q < |a| :: IsMissing(missing, a[q])
    ensures CountPresent(a, missing) == 0
    decreases |a|
  {
    if a != [] {
      AllMissingCountsZero(a[1..], missing);
    }
  }

  // ---------------------------------------------------------------------
  // The ranking result

  /**
   * What the ranking promises: a permutation of 1..n; the first numBats
   * entries are exactly the batteries that are present and the rest are
   * Missing; and present batteries appear in non-increasing SoC order with
   * ties in battery-number order.
   */
  predicate IsRanking(r: seq<int>, socs: seq<int>, missing: seq<bool>)
    requires |socs| == |missing|
  {
    && |r| == |socs|
    && multiset(r) == multiset(Ids(|socs|))
    && ValidIds(r, |socs|)
    && (forall p | 0 <= p < |r| :: (p < NumPresent(missing)) == !IsMissing(missing, r[p]))
    && (forall p, q | 0 <= p < q < |r| && !IsMissing(missing, r[p]) && !IsMissing(missing, r[q]) ::
          RankedBefore(socs, r[p], r[q]))
  }

  lemma {:induction false} RankPermutes(socs: seq<int>, missing: seq<bool>)
    requires |socs| == |missing| >= 1
    ensures multiset(Rank(socs, missing)) == multiset(Ids(|socs|))
  {
    var n := |socs|;
    var s := Sort(Ids(n), n - 1, BySoc(socs));
    SortPermutes(Ids(n), n - 1, BySoc(socs));
    SortPermutes(s, n - 1, MissingLast(missing));
  }

  lemma {:induction false} RankPresentFirst(socs: seq<int>, missing: seq<bool>)
    requires |socs| == |missing| >= 1
    ensures var r := Rank(socs, missing);
      forall p | 0 <= p < |r| :: (p < NumPresent(missing)) == !IsMissing(missing, r[p])
  {
    var n := |socs|;
    var s := Sort(Ids(n), n - 1, BySoc(socs));
    var r := Rank(socs, missing);
    MissingSortTail(s, n - 1, missing);
    assert MissingTail(r, 0, missing);
    TailSplit(r, missing);
    RankPermutes(socs, missing);
    CountPermutation(r, Ids(n), missing);
    CountIds(missing);
  }

  lemma {:induction false} RankOrdersPresent(socs: seq<int>, missing: seq<bool>)
    requires |socs| == |missing| >= 1
    ensures PresentInRankOrder(Rank(socs, missing), socs, missing)
  {
    var n := |socs|;
    var s := Sort(Ids(n), n - 1, BySoc(socs));
    SocSortInRankOrder(socs);
    MissingSortKeepsOrder(s, n - 1, socs, missing);
  }

  lemma {:induction false} RankCorrect(socs: seq<int>, missing: seq<bool>)
    requires |socs| == |missing| >= 1
    ensures IsRanking(Rank(socs, missing), socs, missing)
  {
    RankPermutes(socs, missing);
    RankPresentFirst(socs, missing);
    RankOrdersPresent(socs, missing);
  }
}
