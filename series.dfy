/**
 * Time-indexed observations and the label slice `frame[start_date : end_date]`
 * that the chart callbacks apply with day-resolution bounds.
 *
 * Timestamps are naive seconds since 1970-01-01 00:00; a day is a run of
 * 86400 seconds, so the calendar day of a timestamp is `t / 86400` (floor).
 */
module Series {

  /** One row of a series or frame: its index label and its value. */
  datatype Obs<T> = Obs(time: int, value: T)

  const SecondsPerDay: int := 86400

  function DayOf(t: int): int {
    t / SecondsPerDay
  }

  lemma DayOfMonotone(a: int, b: int)
    requires a <= b
    ensures DayOf(a) <= DayOf(b)
  {
  }

  /** The index labels of a series, in order (`.index.to_list()`). */
  function Times<T>(s: seq<Obs<T>>): (r: seq<int>)
    ensures |r| == |s|
    ensures forall i :: 0 <= i < |s| ==> r[i] == s[i].time
  {
    seq(|s|, i requires 0 <= i < |s| => s[i].time)
  }

  /** A pandas DatetimeIndex as loaded: strictly increasing. */
  predicate Increasing<T>(s: seq<Obs<T>>) {
    forall i, j :: 0 <= i < j < |s| ==> s[i].time < s[j].time
  }

  predicate InDays(t: int, first: int, last: int) {
    first <= DayOf(t) <= last
  }

  /** Position of the first row whose day is not before `first` (searchsorted, side left). */
  function StartPosition<T>(s: seq<Obs<T>>, first: int): (n: nat)
    ensures n <= |s|
  {
    if s == [] || DayOf(s[0].time) >= first then 0 else 1 + StartPosition(s[1..], first)
  }

  /** Position of the first row whose day is after `last` (searchsorted, side right). */
  function EndPosition<T>(s: seq<Obs<T>>, last: int): (n: nat)
    ensures n <= |s|
  {
    if s == [] || DayOf(s[0].time) > last then 0 else 1 + EndPosition(s[1..], last)
  }

  /**
   * `frame[start : end]` with partial-date bounds on a monotonic index: the
   * rows between the two search positions, none when they cross.
   */
  function SliceByDay<T>(s: seq<Obs<T>>, first: int, last: int): (r: seq<Obs<T>>)
    ensures exists lo, hi :: 0 <= lo <= hi <= |s| && r == s[lo..hi]
  {
    var lo, hi := StartPosition(s, first), EndPosition(s, last);
    if lo <= hi then s[lo..hi] else s[lo..lo]
  }

  /** Reference meaning of the slice: the rows whose day lies in `[first, last]`, in order. */
  function FilterByDay<T>(s: seq<Obs<T>>, first: int, last: int): (r: seq<Obs<T>>)
  {
    if s == [] then []
    else (if InDays(s[0].time, first, last) then [s[0]] else []) + FilterByDay(s[1..], first, last)
  }

  lemma {:induction false} FilterByDayMembers<T>(s: seq<Obs<T>>, first: int, last: int)
    ensures forall x :: x in FilterByDay(s, first, last) <==> x in s && InDays(x.time, first, last)
  {
    if s != [] {
      FilterByDayMembers(s[1..], first, last);
      assert s == [s[0]] + s[1..];
    }
  }

  lemma {:induction false} FilterByDayEmpty<T>(s: seq<Obs<T>>, first: int, last: int)
    requires forall i :: 0 <= i < |s| ==> !InDays(s[i].time, first, last)
    ensures FilterByDay(s, first, last) == []
  {
    if s != [] {
      FilterByDayEmpty(s[1..], first, last);
    }
  }

  lemma IncreasingTail<T>(s: seq<Obs<T>>)
    requires Increasing(s) && s != []
    ensures Increasing(s[1..])
    ensures forall i :: 0 < i < |s| ==> DayOf(s[0].time) <= DayOf(s[i].time)
  {
    forall i | 0 < i < |s|
      ensures DayOf(s[0].time) <= DayOf(s[i].time)
    {
      DayOfMonotone(s[0].time, s[i].time);
    }
  }

  /**
   * On a strictly increasing index the searchsorted slice is exactly the
   * in-range filter: a contiguous run that holds every row dated within the
   * bounds and no other.
   */
  lemma {:induction false} SliceIsFilter<T>(s: seq<Obs<T>>, first: int, last: int)
    requires Increasing(s)
    ensures SliceByDay(s, first, last) == FilterByDay(s, first, last)
  {
    if s != [] {
      IncreasingTail(s);
      SliceIsFilter(s[1..], first, last);
      if DayOf(s[0].time) > last {
        SliceAfterLast(s, first, last);
      } else if DayOf(s[0].time) < first {
        SliceBeforeFirst(s, first, last);
        assert FilterByDay(s, first, last) == FilterByDay(s[1..], first, last);
      } else {
        SliceFromHead(s, first, last);
      }
    }
  }

  /** First row already after the range: nothing is selected. */
  lemma SliceAfterLast<T>(s: seq<Obs<T>>, first: int, last: int)
    requires s != [] && DayOf(s[0].time) > last
    requires forall i :: 0 < i < |s| ==> DayOf(s[0].time) <= DayOf(s[i].time)
    ensures SliceByDay(s, first, last) == FilterByDay(s, first, last) == []
  {
    assert EndPosition(s, last) == 0;
    FilterByDayEmpty(s[1..], first, last);
  }

  /** First row before the range: the slice is the tail's slice. */
  lemma SliceBeforeFirst<T>(s: seq<Obs<T>>, first: int, last: int)
    requires s != [] && DayOf(s[0].time) < first && DayOf(s[0].time) <= last
    ensures SliceByDay(s, first, last) == SliceByDay(s[1..], first, last)
  {
    var rest := s[1..];
    var lo', hi' := StartPosition(rest, first), EndPosition(rest, last);
    assert StartPosition(s, first) == 1 + lo' && EndPosition(s, last) == 1 + hi';
    var lo, hi := 1 + lo', if lo' <= hi' then 1 + hi' else 1 + lo';
    assert s[lo..hi] == rest[lo' .. hi - 1];
  }

  /** First row inside the range: both sides keep it, and the tail's slice starts at its head. */
  lemma SliceFromHead<T>(s: seq<Obs<T>>, first: int, last: int)
    requires s != [] && first <= DayOf(s[0].time) <= last
    requires forall i :: 0 < i < |s| ==> DayOf(s[0].time) <= DayOf(s[i].time)
    requires SliceByDay(s[1..], first, last) == FilterByDay(s[1..], first, last)
    ensures SliceByDay(s, first, last) == FilterByDay(s, first, last)
  {
    var rest := s[1..];
    var hi' := EndPosition(rest, last);
    assert StartPosition(s, first) == 0;
    assert EndPosition(s, last) == 1 + hi';
    assert StartPosition(rest, first) == 0 by {
      if rest != [] {
        assert DayOf(rest[0].time) >= first;
      }
    }
    assert s[0..1 + hi'] == [s[0]] + rest[0..hi'];
  }

  /**
   * What the chart slice promises on a strictly increasing index: it keeps
   * the order of the frame, every row it returns is dated within the bounds
   * with its values unchanged, and every row dated within the bounds is kept.
   */
  lemma SliceContents<T>(s: seq<Obs<T>>, first: int, last: int)
    requires Increasing(s)
    ensures Increasing(SliceByDay(s, first, last))
    ensures forall x :: x in SliceByDay(s, first, last) <==> x in s && InDays(x.time, first, last)
  {
    SliceIsFilter(s, first, last);
    FilterByDayMembers(s, first, last);
  }

  /** A start day after the end day selects nothing; pandas returns an empty frame, not an error. */
  lemma CrossedBoundsEmpty<T>(s: seq<Obs<T>>, first: int, last: int)
    requires Increasing(s) && first > last
    ensures SliceByDay(s, first, last) == []
  {
    SliceIsFilter(s, first, last);
    FilterByDayEmpty(s, first, last);
  }
}
