/** Test-list construction of the Autobahn client: merging an explicit list of
    case numbers with an inclusive range (`combine_range_and_values`), the
    `--all` list, the ascending sort it finishes with (`qsort` with
    `int_compare`) and the summary of a range (`print_range`). */
module RangeMerger {

  datatype Option<T> = None | Some(value: T)

  /** The `int range[2]` member of the argument block. */
  type Pair = s: seq<int> | |s| == 2 witness [0, 0]

  /** `int_compare`: its sign orders a before b. Integers are unbounded here,
      so the subtraction cannot overflow. */
  function IntCompare(a: int, b: int): (r: int)
    ensures r < 0 <==> a < b
    ensures r == 0 <==> a == b
  {
    a - b
  }

  predicate Sorted(s: seq<int>)
  {
    forall i, j :: 0 <= i < j < |s| ==> s[i] <= s[j]
  }

  lemma ConsSorted(x: int, t: seq<int>)
    requires Sorted(t)
    requires forall k :: 0 <= k < |t| ==> x <= t[k]
    ensures Sorted([x] + t)
  {
    forall i, j | 0 <= i < j < |[x] + t| ensures ([x] + t)[i] <= ([x] + t)[j] {
      if i > 0 {
        assert ([x] + t)[i] == t[i - 1];
      }
      assert ([x] + t)[j] == t[j - 1];
    }
  }

  /** Inserts x into a sorted list before the first element not below it. */
  function Insert(x: int, s: seq<int>): (r: seq<int>)
    requires Sorted(s)
    ensures Sorted(r)
    ensures multiset(r) == multiset(s) + multiset{x}
    decreases |s|
  {
    if s == [] || IntCompare(x, s[0]) <= 0 then
      ConsSorted(x, s);
      [x] + s
    else
      var t := Insert(x, s[1..]);
      assert s == [s[0]] + s[1..];
      assert forall k :: 0 <= k < |t| ==> s[0] <= t[k] by {
        forall k | 0 <= k < |t| ensures s[0] <= t[k] {
          assert t[k] in multiset(t);
          assert t[k] == x || t[k] in multiset(s[1..]);
        }
      }
      ConsSorted(s[0], t);
      [s[0]] + t
  }

  /** The ideal ascending sort that `qsort(..., int_compare)` performs. */
  function Sort(s: seq<int>): (r: seq<int>)
    ensures Sorted(r)
    ensures multiset(r) == multiset(s)
    ensures |r| == |s|
  {
    if s == [] then []
    else
      assert s == [s[0]] + s[1..];
      var r := Insert(s[0], Sort(s[1..]));
      assert |multiset(r)| == |multiset(s)|;
      r
  }

  lemma SortedHeadIsLeast(s: seq<int>, x: int)
    requires Sorted(s) && x in multiset(s)
    ensures s != [] && s[0] <= x
  {
    var k :| 0 <= k < |s| && s[k] == x;
  }

  /** A sorted permutation is unique, so `Sort` stands for any correct sort,
      qsort's own order of comparisons included. */
  lemma {:induction false} SortedUnique(a: seq<int>, b: seq<int>)
    requires Sorted(a) && Sorted(b) && multiset(a) == multiset(b)
    ensures a == b
    decreases |a|
  {
    if a == [] {
      assert |multiset(b)| == 0;
    } else {
      assert a[0] in multiset(a);
      SortedHeadIsLeast(b, a[0]);
      assert b[0] in multiset(b);
      SortedHeadIsLeast(a, b[0]);
      assert a[0] == b[0];
      assert a == [a[0]] + a[1..];
      assert b == [b[0]] + b[1..];
      assert multiset(a[1..]) == multiset(a) - multiset{a[0]};
      assert multiset(b[1..]) == multiset(b) - multiset{b[0]};
      SortedUnique(a[1..], b[1..]);
    }
  }

  /** The integers of [lo, hi] in ascending order, each once. */
  function Interval(lo: int, hi: int): seq<int>
  {
    seq(if lo <= hi then hi - lo + 1 else 0, i => lo + i)
  }

  lemma {:induction false} IntervalCounts(lo: int, hi: int, x: int)
    ensures multiset(Interval(lo, hi))[x] == if lo <= x <= hi then 1 else 0
    decreases hi - lo
  {
    if lo <= hi {
      assert Interval(lo, hi) == Interval(lo, hi - 1) + [hi];
      IntervalCounts(lo, hi - 1, x);
    } else {
      assert Interval(lo, hi) == [];
    }
  }

  predicate OutOfRange(x: int, lo: int, hi: int)
  {
    x < lo || x > hi
  }

  /** The elements of v outside [lo, hi], in their original order. */
  function Outside(v: seq<int>, lo: int, hi: int): (r: seq<int>)
    ensures |r| <= |v|
  {
    if v == [] then []
    else
      var last := v[|v| - 1];
      Outside(v[..|v| - 1], lo, hi) + (if OutOfRange(last, lo, hi) then [last] else [])
  }

  lemma {:induction false} OutsideCounts(v: seq<int>, lo: int, hi: int, x: int)
    ensures multiset(Outside(v, lo, hi))[x] == if lo <= x <= hi then 0 else multiset(v)[x]
    decreases |v|
  {
    if v != [] {
      OutsideCounts(v[..|v| - 1], lo, hi, x);
      assert v == v[..|v| - 1] + [v[|v| - 1]];
    }
  }

  /** The index set the source counts in `more_count`. */
  function OutsideIndices(v: seq<int>, lo: int, hi: int): set<int>
  {
    set j | 0 <= j < |v| && OutOfRange(v[j], lo, hi)
  }

  lemma {:induction false} OutsideSize(v: seq<int>, lo: int, hi: int)
    ensures |Outside(v, lo, hi)| == |OutsideIndices(v, lo, hi)|
    decreases |v|
  {
    if v != [] {
      var n := |v| - 1;
      var init := v[..n];
      OutsideSize(init, lo, hi);
      if OutOfRange(v[n], lo, hi) {
        assert OutsideIndices(v, lo, hi) == OutsideIndices(init, lo, hi) + {n};
      } else {
        assert OutsideIndices(v, lo, hi) == OutsideIndices(init, lo, hi);
      }
    } else {
      assert OutsideIndices(v, lo, hi) == {};
    }
  }

  lemma {:induction false} OutsidePrefix(v: seq<int>, k: nat, lo: int, hi: int)
    requires k <= |v|
    ensures |Outside(v[..k], lo, hi)| <= |Outside(v, lo, hi)|
    decreases |v|
  {
    if k < |v| {
      assert v[..|v| - 1][..k] == v[..k];
      OutsidePrefix(v[..|v| - 1], k, lo, hi);
    } else {
      assert v[..k] == v;
    }
  }

  /** The inclusive upper end of a range: its second endpoint when it has
      two, otherwise the case count reported by the server. */
  function Stop(maxCase: int, range: Pair, rangeCount: nat): int
  {
    if rangeCount == 2 then range[1] else maxCase
  }

  lemma MergedCounts(start: int, stop: int, values: seq<int>)
    ensures forall x :: multiset(Interval(start, stop) + Outside(values, start, stop))[x]
                        == if start <= x <= stop then 1 else multiset(values)[x]
  {
    forall x ensures multiset(Interval(start, stop) + Outside(values, start, stop))[x]
                     == if start <= x <= stop then 1 else multiset(values)[x]
    {
      IntervalCounts(start, stop, x);
      OutsideCounts(values, start, stop, x);
    }
  }

  /** What `combine_range_and_values` leaves in `*values`: None when it
      rejects the range (and leaves the list alone), otherwise the new list. */
  function Combine(maxCase: int, range: Pair, rangeCount: nat, values: seq<int>): (r: Option<seq<int>>)
    ensures r.None? <==> range[0] <= 0 || Stop(maxCase, range, rangeCount) < range[0]
    ensures r.Some? ==>
      var start, stop := range[0], Stop(maxCase, range, rangeCount);
      && Sorted(r.value)
      && |r.value| == (stop - start + 1) + |OutsideIndices(values, start, stop)|
      && forall x :: multiset(r.value)[x] == if start <= x <= stop then 1 else multiset(values)[x]
  {
    var start, stop := range[0], Stop(maxCase, range, rangeCount);
    if start <= 0 || (stop - start) + 1 <= 0 then None
    else
      var merged := Interval(start, stop) + Outside(values, start, stop);
      MergedCounts(start, stop, values);
      OutsideSize(values, start, stop);
      Some(Sort(merged))
  }

  /** A range with fewer or more than two endpoints runs to the case count. */
  lemma CombineOpenRange(maxCase: int, range: Pair, rangeCount: nat, values: seq<int>)
    requires rangeCount != 2
    ensures Combine(maxCase, range, rangeCount, values) == Combine(maxCase, [range[0], maxCase], 2, values)
  {
  }

  /** The merge is determined by its contents: any sorted list holding each
      integer of the range once and the outside elements as often as before
      is the merge. */
  lemma CombineCharacterised(maxCase: int, range: Pair, rangeCount: nat, values: seq<int>, s: seq<int>)
    requires range[0] > 0 && Stop(maxCase, range, rangeCount) >= range[0]
    requires Sorted(s)
    requires forall x :: multiset(s)[x] ==
                         if range[0] <= x <= Stop(maxCase, range, rangeCount) then 1 else multiset(values)[x]
    ensures Combine(maxCase, range, rangeCount, values) == Some(s)
  {
    var r := Combine(maxCase, range, rangeCount, values).value;
    assert multiset(r) == multiset(s);
    SortedUnique(r, s);
  }

  /** Explicit list [5, 12] with the range [10, 14]: 12 is covered by the
      range, 5 is kept. */
  lemma CombineExample()
    ensures Combine(0, [10, 14], 2, [5, 12]) == Some([5, 10, 11, 12, 13, 14])
  {
    var s := [5, 10, 11, 12, 13, 14];
    assert Sorted(s);
    assert multiset(s) == multiset{5, 10, 11, 12, 13, 14};
    assert multiset([5, 12]) == multiset{5, 12};
    forall x ensures multiset(s)[x] == if 10 <= x <= 14 then 1 else multiset([5, 12])[x] {
      if x == 5 {
      } else if 10 <= x <= 14 {
      } else {
      }
    }
    CombineCharacterised(0, [10, 14], 2, [5, 12], s);
  }

  /** A C `int` value after two's-complement wrap-around. */
  function Int32(x: int): (r: int)
    ensures -0x8000_0000 <= r < 0x8000_0000
    ensures -0x8000_0000 <= x < 0x8000_0000 ==> r == x
  {
    var m := x % 0x1_0000_0000;
    if m >= 0x8000_0000 then m - 0x1_0000_0000 else m
  }

  /** The range check of `combine_range_and_values` as written: start must
      be positive, and `tmp_count = (stop - start) + 1`, computed in 32-bit
      `int`, must be positive. */
  predicate RangeAcceptedAsWritten(start: int, stop: int)
  {
    start > 0 && Int32(Int32(stop - start) + 1) > 0
  }

  /** Where `stop - start` fits in an `int`, the check as written accepts
      exactly the ranges `Combine` accepts. */
  lemma RangeCheckWithoutOverflow(start: int, stop: int)
    requires -0x8000_0000 <= stop - start < 0x7FFF_FFFF
    ensures RangeAcceptedAsWritten(start, stop) <==> start > 0 && start <= stop
  {
  }

  /** The range [2, INT_MIN] passes the check as written, because
      `stop - start` wraps to INT_MAX - 1, although it holds no case; the
      fill loop would then count up to `(size_t)stop`. `Combine` rejects it. */
  lemma NegativeStopAccepted()
    ensures RangeAcceptedAsWritten(2, -0x8000_0000)
    ensures Interval(2, -0x8000_0000) == []
    ensures Combine(0, [2, -0x8000_0000], 2, []).None?
  {
  }

  /** `qsort(a, n, sizeof(int), int_compare)` on the whole array. */
  method Qsort(a: array<int>)
    modifies a
    ensures a[..] == Sort(old(a[..]))
  {
    var sorted := Sort(a[..]);
    forall i | 0 <= i < a.Length {
      a[i] := sorted[i];
    }
    assert a[..] == sorted;
  }

  /** One more element of the list. */
  lemma OutsideSnoc(v: seq<int>, k: nat, lo: int, hi: int)
    requires k < |v|
    ensures Outside(v[..k + 1], lo, hi) == Outside(v[..k], lo, hi) + (if OutOfRange(v[k], lo, hi) then [v[k]] else [])
  {
    assert v[..k + 1][..k] == v[..k];
  }

  /** The first loop of `combine_range_and_values`: `more_count`, the
      number of listed cases outside [start, stop]. */
  method CountOutside(values: array<int>, start: int, stop: int) returns (moreCount: int)
    ensures moreCount == |OutsideIndices(values[..], start, stop)|
    ensures moreCount == |Outside(values[..], start, stop)|
  {
    moreCount := 0;
    for i := 0 to values.Length
      invariant moreCount == |Outside(values[..i], start, stop)|
    {
      OutsideSnoc(values[..], i, start, stop);
      if values[i] < start || values[i] > stop {
        moreCount := moreCount + 1;
      }
    }
    assert values[..values.Length] == values[..];
    OutsideSize(values[..], start, stop);
  }

  /** The two filling loops of `combine_range_and_values`: the range, then
      the listed cases outside it in list order. */
  method FillMerged(tmp: array<int>, start: int, stop: int, values: array<int>)
    requires tmp != values
    requires start <= stop
    requires tmp.Length == (stop - start + 1) + |Outside(values[..], start, stop)|
    modifies tmp
    ensures tmp[..] == Interval(start, stop) + Outside(values[..], start, stop)
  {
    var i := 0;
    var j := start;
    while j <= stop
      invariant start <= j <= stop + 1
      invariant i == j - start
      invariant tmp[..i] == Interval(start, j - 1)
    {
      tmp[i] := j;
      i := i + 1;
      j := j + 1;
    }
    for k := 0 to values.Length
      invariant i == (stop - start + 1) + |Outside(values[..k], start, stop)|
      invariant i <= tmp.Length
      invariant tmp[..i] == Interval(start, stop) + Outside(values[..k], start, stop)
    {
      OutsideSnoc(values[..], k, start, stop);
      if values[k] < start || values[k] > stop {
        OutsidePrefix(values[..], k + 1, start, stop);
        tmp[i] := values[k];
        i := i + 1;
      }
    }
    assert values[..values.Length] == values[..];
    assert tmp[..] == tmp[..i];
  }

  /** `combine_range_and_values`: on error it returns -1 and the caller keeps
      its list; on success it returns 0 and a fresh array that replaces the
      caller's list (its length is the new `*value_count`). */
  method CombineRangeAndValues(maxCase: int, range: Pair, rangeCount: nat, values: array<int>)
    returns (rc: int, result: array<int>)
    ensures rc == 0 || rc == -1
    ensures rc == -1 <==> Combine(maxCase, range, rangeCount, values[..]).None?
    ensures rc == -1 ==> result == values
    ensures rc == 0 ==> fresh(result) && result[..] == Combine(maxCase, range, rangeCount, values[..]).value
  {
    var start := range[0];
    var stop := if rangeCount == 2 then range[1] else maxCase;
    if start <= 0 {
      return -1, values;
    }
    var moreCount := CountOutside(values, start, stop);
    var tmpCount := (stop - start) + 1;
    if tmpCount <= 0 {
      return -1, values;
    }
    tmpCount := tmpCount + moreCount;
    var tmp := new int[tmpCount];
    FillMerged(tmp, start, stop, values);
    Qsort(tmp);
    return 0, tmp;
  }

  /** The `--all` list: the cases 1 .. n. */
  function Iota(n: nat): (r: seq<int>)
  {
    seq(n, i => i + 1)
  }

  /** The `--all` branch of `run_cases`: a fresh array holding 1 .. maxCase. */
  method AllCases(maxCase: nat) returns (a: array<int>)
    ensures fresh(a)
    ensures a[..] == Iota(maxCase)
  {
    a := new int[maxCase];
    for i := 0 to maxCase
      invariant forall k :: 0 <= k < i ==> a[k] == k + 1
    {
      a[i] := i + 1;
    }
  }

  lemma IotaIsRange(n: nat)
    ensures Sorted(Iota(n))
    ensures forall x :: multiset(Iota(n))[x] == if 1 <= x <= n then 1 else 0
  {
    assert Iota(n) == Interval(1, n);
    forall x ensures multiset(Iota(n))[x] == if 1 <= x <= n then 1 else 0 {
      IntervalCounts(1, n, x);
    }
  }

  /** How `print_range` shows a range. */
  datatype RangeShown = ToMax(start: int) | FromTo(start: int, stop: int) | NoRange

  function PrintRange(rangeCount: nat, range: Pair): (r: RangeShown)
  {
    if rangeCount == 1 then ToMax(range[0])
    else if rangeCount == 2 then FromTo(range[0], range[1])
    else NoRange
  }

  /** The range shown to the operator is the range the merge uses. */
  lemma PrintRangeAgrees(maxCase: int, rangeCount: nat, range: Pair)
    requires rangeCount == 1 || rangeCount == 2
    ensures match PrintRange(rangeCount, range)
      case ToMax(s) => s == range[0] && Stop(maxCase, range, rangeCount) == maxCase
      case FromTo(s, t) => s == range[0] && t == Stop(maxCase, range, rangeCount)
      case NoRange => false
  {
  }
}
