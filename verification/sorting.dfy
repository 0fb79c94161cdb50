/** Aggregated chart points and the stable descending sort `getChartData`
    finishes with (`sort((a, b) => b.value - a.value)`; JavaScript's sort
    is stable). */
module Sorting {

  /** One bar/slice of a chart: category label, summed value, and the
      formatted range of dates seen in the category. */
  datatype Point = Point(name: string, value: real, dateRange: string)

  predicate SortedDesc(s: seq<Point>) {
    forall i, j :: 0 <= i < j < |s| ==> s[i].value >= s[j].value
  }

  /** Inserts `x` after every element whose value is at least its own. */
  function Insert(x: Point, s: seq<Point>): (r: seq<Point>)
    ensures |r| == |s| + 1
  {
    if |s| == 0 then [x]
    else if s[0].value >= x.value then
      assert s == [s[0]] + s[1..];
      [s[0]] + Insert(x, s[1..])
    else [x] + s
  }

  /** No point of `s` has a value above `b`. */
  predicate AtMost(b: real, s: seq<Point>) {
    forall k :: 0 <= k < |s| ==> s[k].value <= b
  }

  /** A sorted list's head bounds its tail, and the tail is sorted. */
  lemma SortedTail(h: Point, t: seq<Point>)
    requires SortedDesc([h] + t)
    ensures AtMost(h.value, t) && SortedDesc(t)
  {
    var s := [h] + t;
    forall k | 0 <= k < |t| ensures t[k].value <= h.value {
      assert s[0] == h && s[k + 1] == t[k];
    }
    forall i, j | 0 <= i < j < |t| ensures t[i].value >= t[j].value {
      assert s[i + 1] == t[i] && s[j + 1] == t[j];
    }
  }

  /** A head that bounds a sorted tail makes a sorted list. */
  lemma SortedCons(h: Point, t: seq<Point>)
    requires AtMost(h.value, t) && SortedDesc(t)
    ensures SortedDesc([h] + t)
  {
    var s := [h] + t;
    forall i, j | 0 <= i < j < |s| ensures s[i].value >= s[j].value {
      assert s[j] == t[j - 1];
      if i > 0 {
        assert s[i] == t[i - 1];
      }
    }
  }

  /** Inserting a point below a bound keeps the list below it. */
  lemma {:induction false} InsertAtMost(x: Point, s: seq<Point>, b: real)
    requires AtMost(b, s) && x.value <= b
    ensures AtMost(b, Insert(x, s))
  {
    if |s| > 0 && s[0].value >= x.value {
      InsertAtMost(x, s[1..], b);
      assert Insert(x, s) == [s[0]] + Insert(x, s[1..]);
    }
  }

  lemma {:induction false} InsertSorted(x: Point, s: seq<Point>)
    requires SortedDesc(s)
    ensures SortedDesc(Insert(x, s))
  {
    if |s| == 0 {
      assert Insert(x, s) == [x];
    } else {
      var t := s[1..];
      assert s == [s[0]] + t;
      if s[0].value >= x.value {
        SortedTail(s[0], t);
        InsertSorted(x, t);
        InsertAtMost(x, t, s[0].value);
        assert Insert(x, s) == [s[0]] + Insert(x, t);
        SortedCons(s[0], Insert(x, t));
      } else {
        assert Insert(x, s) == [x] + s;
        assert AtMost(x.value, s);
        SortedCons(x, s);
      }
    }
  }

  /** Insertion sort, one element at a time from the left. */
  function SortDesc(s: seq<Point>): (r: seq<Point>)
    ensures |r| == |s|
  {
    if |s| == 0 then []
    else
      var r := Insert(s[|s| - 1], SortDesc(s[..|s| - 1]));
      assert s == s[..|s| - 1] + [s[|s| - 1]];
      r
  }

  /** One insertion step adds exactly `x` and keeps every other point. */
  lemma {:induction false} InsertPermutes(x: Point, s: seq<Point>)
    ensures multiset(Insert(x, s)) == multiset(s) + multiset{x}
  {
    if |s| > 0 && s[0].value >= x.value {
      InsertPermutes(x, s[1..]);
      assert s == [s[0]] + s[1..];
      assert Insert(x, s) == [s[0]] + Insert(x, s[1..]);
    } else if |s| > 0 {
      assert Insert(x, s) == [x] + s;
    }
  }

  /** Sorting one more point from the right is one more insertion. */
  lemma SortDescSnoc(init: seq<Point>, x: Point)
    ensures SortDesc(init + [x]) == Insert(x, SortDesc(init))
  {
    assert (init + [x])[..|init|] == init;
  }

  /** The sort is a permutation of its input. */
  lemma {:induction false} SortDescPermutes(s: seq<Point>)
    ensures multiset(SortDesc(s)) == multiset(s)
  {
    if |s| > 0 {
      var init := s[..|s| - 1];
      var x := s[|s| - 1];
      assert s == init + [x];
      SortDescPermutes(init);
      SortDescSnoc(init, x);
      InsertPermutes(x, SortDesc(init));
    }
  }

  lemma {:induction false} SortDescSorted(s: seq<Point>)
    ensures SortedDesc(SortDesc(s))
  {
    if |s| > 0 {
      var init := s[..|s| - 1];
      var x := s[|s| - 1];
      assert s == init + [x];
      SortDescSnoc(init, x);
      SortDescSorted(init);
      InsertSorted(x, SortDesc(init));
    }
  }

  /** The points carrying value `v`, in order. */
  function WithValue(s: seq<Point>, v: real): seq<Point> {
    if |s| == 0 then []
    else (if s[0].value == v then [s[0]] else []) + WithValue(s[1..], v)
  }

  lemma {:induction false} WithValueAppend(a: seq<Point>, b: seq<Point>, v: real)
    ensures WithValue(a + b, v) == WithValue(a, v) + WithValue(b, v)
  {
    if |a| > 0 {
      WithValueAppend(a[1..], b, v);
      assert (a + b)[1..] == a[1..] + b;
    } else {
      assert a + b == b;
    }
  }

  lemma {:induction false} WithValueNone(s: seq<Point>, v: real)
    requires forall k :: 0 <= k < |s| ==> s[k].value < v
    ensures WithValue(s, v) == []
  {
    if |s| > 0 {
      WithValueNone(s[1..], v);
    }
  }

  /** `x` goes in front of a list whose values are all below its own. */
  lemma InsertInFront(x: Point, s: seq<Point>, v: real)
    requires SortedDesc(s) && |s| > 0 && s[0].value < x.value
    ensures WithValue(Insert(x, s), v) == WithValue(s, v) + (if x.value == v then [x] else [])
  {
    assert Insert(x, s) == [x] + s;
    assert ([x] + s)[1..] == s;
    if x.value == v {
      assert forall k :: 0 <= k < |s| ==> s[k].value <= s[0].value;
      WithValueNone(s, v);
    }
  }

  /** Unfolds `WithValue` once on a list with a known head. */
  lemma WithValueCons(h: Point, t: seq<Point>, v: real)
    ensures WithValue([h] + t, v) == (if h.value == v then [h] else []) + WithValue(t, v)
  {
    assert ([h] + t)[1..] == t;
  }

  /** A head at least as large as `x` stays in front of it. */
  lemma InsertCons(x: Point, h: Point, t: seq<Point>)
    requires h.value >= x.value
    ensures Insert(x, [h] + t) == [h] + Insert(x, t)
  {
    assert ([h] + t)[1..] == t;
  }

  /** The recursive step of `InsertWithValue`: a head that stays in front
      contributes the same points on both sides. */
  lemma InsertWithValueStep(x: Point, h: Point, t: seq<Point>, v: real, tail: seq<Point>)
    requires h.value >= x.value
    requires WithValue(Insert(x, t), v) == WithValue(t, v) + tail
    ensures WithValue(Insert(x, [h] + t), v) == WithValue([h] + t, v) + tail
  {
    var head := if h.value == v then [h] else [];
    calc {
      WithValue(Insert(x, [h] + t), v);
      { InsertCons(x, h, t); }
      WithValue([h] + Insert(x, t), v);
      { WithValueCons(h, Insert(x, t), v); }
      head + WithValue(Insert(x, t), v);
      head + (WithValue(t, v) + tail);
      (head + WithValue(t, v)) + tail;
      { WithValueCons(h, t, v); }
      WithValue([h] + t, v) + tail;
    }
  }

  lemma {:induction false} InsertWithValue(x: Point, s: seq<Point>, v: real)
    requires SortedDesc(s)
    ensures WithValue(Insert(x, s), v) == WithValue(s, v) + (if x.value == v then [x] else [])
  {
    if |s| == 0 {
      WithValueCons(x, [], v);
      assert [x] + [] == [x];
    } else if s[0].value >= x.value {
      var t := s[1..];
      assert s == [s[0]] + t;
      SortedTail(s[0], t);
      InsertWithValue(x, t, v);
      InsertWithValueStep(x, s[0], t, v, if x.value == v then [x] else []);
    } else {
      InsertInFront(x, s, v);
    }
  }

  /** Stability: the points of any one value keep their relative order. */
  lemma {:induction false} SortDescStable(s: seq<Point>, v: real)
    ensures WithValue(SortDesc(s), v) == WithValue(s, v)
  {
    if |s| > 0 {
      var init := s[..|s| - 1];
      var x := s[|s| - 1];
      assert s == init + [x];
      WithValueAppend(init, [x], v);
      SortDescStable(init, v);
      SortDescSorted(init);
      InsertWithValue(x, SortDesc(init), v);
      SortDescSnoc(init, x);
      assert WithValue([x], v) == (if x.value == v then [x] else []) + WithValue([], v);
    }
  }

  function TotalValue(s: seq<Point>): real {
    if |s| == 0 then 0.0 else s[0].value + TotalValue(s[1..])
  }

  lemma {:induction false} TotalValueAppend(a: seq<Point>, b: seq<Point>)
    ensures TotalValue(a + b) == TotalValue(a) + TotalValue(b)
  {
    if |a| > 0 {
      TotalValueAppend(a[1..], b);
      assert (a + b)[1..] == a[1..] + b;
    } else {
      assert a + b == b;
    }
  }

  lemma {:induction false} InsertTotal(x: Point, s: seq<Point>)
    ensures TotalValue(Insert(x, s)) == x.value + TotalValue(s)
  {
    if |s| > 0 && s[0].value >= x.value {
      InsertTotal(x, s[1..]);
      assert Insert(x, s)[1..] == Insert(x, s[1..]);
    }
  }

  /** Sorting neither adds nor loses value. */
  lemma {:induction false} SortDescTotal(s: seq<Point>)
    ensures TotalValue(SortDesc(s)) == TotalValue(s)
  {
    if |s| > 0 {
      var init := s[..|s| - 1];
      var x := s[|s| - 1];
      assert s == init + [x];
      SortDescSnoc(init, x);
      SortDescTotal(init);
      InsertTotal(x, SortDesc(init));
      TotalValueAppend(init, [x]);
    }
  }

  /** Replacing one point changes the total by the difference of values. */
  lemma {:induction false} TotalValueUpdate(s: seq<Point>, i: nat, p: Point)
    requires i < |s|
    ensures TotalValue(s[i := p]) == TotalValue(s) - s[i].value + p.value
  {
    if i > 0 {
      TotalValueUpdate(s[1..], i - 1, p);
      assert s[i := p][1..] == s[1..][i - 1 := p];
    }
  }

  /** `filter(item => item.value > 0)` */
  function Positive(s: seq<Point>): (r: seq<Point>)
    ensures |r| <= |s|
    ensures forall k :: 0 <= k < |r| ==> r[k].value > 0.0 && r[k] in s
    ensures forall k :: 0 <= k < |s| && s[k].value > 0.0 ==> s[k] in r
  {
    if |s| == 0 then []
    else (if s[0].value > 0.0 then [s[0]] else []) + Positive(s[1..])
  }

  /** Dropping the non-positive points keeps every positive value's points
      in order and removes every other value. */
  lemma {:induction false} PositiveWithValue(s: seq<Point>, v: real)
    ensures WithValue(Positive(s), v) == if v > 0.0 then WithValue(s, v) else []
  {
    if |s| > 0 {
      PositiveWithValue(s[1..], v);
      WithValueAppend(if s[0].value > 0.0 then [s[0]] else [], Positive(s[1..]), v);
    }
  }

  /** Nothing is dropped when every value is positive. */
  lemma {:induction false} PositiveAllPositive(s: seq<Point>)
    requires forall k :: 0 <= k < |s| ==> s[k].value > 0.0
    ensures Positive(s) == s
  {
    if |s| > 0 {
      PositiveAllPositive(s[1..]);
    }
  }

  predicate DistinctNames(s: seq<Point>) {
    forall i, j :: 0 <= i < j < |s| ==> s[i].name != s[j].name
  }

  lemma {:induction false} PositiveDistinct(s: seq<Point>)
    requires DistinctNames(s)
    ensures DistinctNames(Positive(s))
  {
    if |s| > 0 {
      PositiveDistinct(s[1..]);
      var rest := Positive(s[1..]);
      forall k | 0 <= k < |rest| ensures rest[k].name != s[0].name {
        assert rest[k] in s[1..];
      }
    }
  }

  lemma {:induction false} InsertDistinct(x: Point, s: seq<Point>)
    requires DistinctNames(s)
    requires forall k :: 0 <= k < |s| ==> s[k].name != x.name
    ensures DistinctNames(Insert(x, s))
  {
    if |s| > 0 && s[0].value >= x.value {
      var t := s[1..];
      InsertDistinct(x, t);
      var r := Insert(x, t);
      InsertPermutes(x, t);
      forall k | 0 <= k < |r| ensures r[k].name != s[0].name {
        assert r[k] in multiset(r);
        assert r[k] in multiset(t) || r[k] == x;
      }
    }
  }

  /** Sorting never duplicates a category. */
  lemma {:induction false} SortDescDistinct(s: seq<Point>)
    requires DistinctNames(s)
    ensures DistinctNames(SortDesc(s))
  {
    if |s| > 0 {
      var init := s[..|s| - 1];
      var x := s[|s| - 1];
      assert s == init + [x];
      SortDescSnoc(init, x);
      SortDescDistinct(init);
      var r := SortDesc(init);
      SortDescPermutes(init);
      forall k | 0 <= k < |r| ensures r[k].name != x.name {
        assert r[k] in multiset(r);
        assert r[k] in init;
      }
      InsertDistinct(x, r);
    }
  }
}
