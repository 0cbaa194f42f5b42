/**
 * What the schedule grid promises: how records are filed into buckets, and
 * the shape of every normalised channel list.
 */
module ScheduleFacts {
  import opened Optional
  import opened Calendar
  import opened Programs
  import opened GapFill
  import opened Grouping

  /** A bucket holds only kept records filed under its own key. */
  lemma {:induction false} SelectMembers(ps: seq<Program>, threshold: int, tz: int, d: int, n: int, s: int, x: Program)
    requires x in Select(ps, threshold, tz, d, n, s)
    ensures BelongsTo(x, threshold, tz, d, n, s)
    decreases |ps|
  {
    var last := ps[|ps| - 1];
    if x in Select(ps[..|ps| - 1], threshold, tz, d, n, s) {
      SelectMembers(ps[..|ps| - 1], threshold, tz, d, n, s, x);
    }
  }

  /**
   * No record is lost or duplicated: a bucket holds a record as many times as
   * the input does when the record belongs there, and not at all otherwise.
   */
  lemma {:induction false} SelectCount(ps: seq<Program>, threshold: int, tz: int, d: int, n: int, s: int, x: Program)
    ensures multiset(Select(ps, threshold, tz, d, n, s))[x]
         == if BelongsTo(x, threshold, tz, d, n, s) then multiset(ps)[x] else 0
    decreases |ps|
  {
    if ps != [] {
      var init := ps[..|ps| - 1];
      assert ps == init + [ps[|ps| - 1]];
      SelectCount(init, threshold, tz, d, n, s, x);
    }
  }

  /** Every kept record lands in exactly one bucket: the one of its own day, network and service. */
  lemma KeptInExactlyOneBucket(ps: seq<Program>, threshold: int, tz: int, x: Program)
    requires x in ps && Kept(x, threshold)
    ensures x in Select(ps, threshold, tz, DayKey(x.startAt, tz), x.networkId.value, x.serviceId.value)
    ensures forall d, n, s | x in Select(ps, threshold, tz, d, n, s) ::
      d == DayKey(x.startAt, tz) && n == x.networkId.value && s == x.serviceId.value
  {
    SelectCount(ps, threshold, tz, DayKey(x.startAt, tz), x.networkId.value, x.serviceId.value, x);
    forall d, n, s | x in Select(ps, threshold, tz, d, n, s)
      ensures d == DayKey(x.startAt, tz) && n == x.networkId.value && s == x.serviceId.value
    {
      SelectMembers(ps, threshold, tz, d, n, s, x);
    }
  }

  /**
   * Every real programme of bucket `d` starts within broadcast day `d`
   * (between its 05:00 and the next day's), and that day is not before
   * today's.
   */
  lemma BucketWindow(ps: seq<Program>, now: int, tz: int, d: int, n: int, s: int, x: Program)
    requires x in Select(ps, Threshold(now, tz), tz, d, n, s)
    ensures d + RolloverMs <= x.startAt < d + RolloverMs + DayMs
    ensures DayKey(now, tz) <= d
  {
    SelectMembers(ps, Threshold(now, tz), tz, d, n, s, x);
    ThresholdMatchesDayKey(x.startAt, now, tz);
  }

  /**
   * The tab selected when the view opens, the broadcast day of `now`, is not
   * after any day present in the grid.
   */
  lemma InitialTabIsEarliest(ps: seq<Program>, now: int, tz: int, d: int, n: int, s: int)
    requires Select(ps, Threshold(now, tz), tz, d, n, s) != []
    ensures DayKey(now, tz) <= d
  {
    var x := Select(ps, Threshold(now, tz), tz, d, n, s)[0];
    BucketWindow(ps, now, tz, d, n, s, x);
  }

  /**
   * Every non-empty bucket is a valid input for channel normalisation: its
   * key is a local midnight, every record in it is a named programme of that
   * broadcast day, and durations are non-negative when the input's are.
   */
  lemma BucketIsChannelInput(ps: seq<Program>, now: int, tz: int, d: int, n: int, s: int)
    requires Select(ps, Threshold(now, tz), tz, d, n, s) != []
    ensures ChannelInput(Select(ps, Threshold(now, tz), tz, d, n, s), d, tz)
    ensures NonNegDurations(ps) ==> NonNegDurations(Select(ps, Threshold(now, tz), tz, d, n, s))
  {
    var th := Threshold(now, tz);
    var b := Select(ps, th, tz, d, n, s);
    forall x | x in b ensures DayKey(x.startAt, tz) == d && !IsFiller(x) && x in ps {
      SelectMembers(ps, th, tz, d, n, s, x);
      SelectCount(ps, th, tz, d, n, s, x);
    }
    assert DayKey(b[0].startAt, tz) == d;
  }

  /** Records that are dropped appear in no bucket. */
  lemma DroppedInNoBucket(ps: seq<Program>, now: int, tz: int, x: Program)
    requires !Kept(x, Threshold(now, tz))
    ensures forall d, n, s :: x !in Select(ps, Threshold(now, tz), tz, d, n, s)
  {
    forall d, n, s ensures x !in Select(ps, Threshold(now, tz), tz, d, n, s) {
      if x in Select(ps, Threshold(now, tz), tz, d, n, s) {
        SelectMembers(ps, Threshold(now, tz), tz, d, n, s, x);
      }
    }
  }

  lemma {:induction false} ShowsOnlyKept(ps: seq<Program>, threshold: int)
    requires forall q | q in ps && !IsFiller(q) :: Kept(q, threshold)
    ensures forall y | y in Shows(ps) :: Kept(y, threshold)
  {
    if ps != [] {
      ShowsOnlyKept(ps[1..], threshold);
    }
  }

  /** A bucket is a valid input for channel normalisation on broadcast day `day`. */
  predicate ChannelInput(b: seq<Program>, day: int, tz: int) {
    && b != [] && IsMidnight(day, tz)
    && forall x | x in b :: DayKey(x.startAt, tz) == day && !IsFiller(x)
  }

  /** The earliest programme of a bucket is a real one starting no earlier than the day's 05:00. */
  lemma EarliestOfDay(b: seq<Program>, day: int, tz: int)
    requires ChannelInput(b, day, tz)
    ensures SortByStart(b)[0].startAt >= day + RolloverMs && !IsFiller(SortByStart(b)[0])
  {
    var first := SortByStart(b)[0];
    SortByStartPermutes(b);
    assert first in multiset(b);
    assert DayKey(first.startAt, tz) == day;
  }

  /** The sorted bucket, opened with a filler from 05:00 when it starts later. */
  lemma PreparedList(b: seq<Program>, day: int, tz: int)
    requires ChannelInput(b, day, tz)
    ensures var sorted, dayStart := SortByStart(b), day + RolloverMs;
      var list := WithDayStart(sorted, FiveOClock(day, tz));
      && sorted[0].startAt >= dayStart
      && |list| == |b| + (if sorted[0].startAt > dayStart then 1 else 0)
      && (sorted[0].startAt > dayStart ==>
            list == [Filler(dayStart, sorted[0].startAt - dayStart)] + sorted && End(list[0]) == list[1].startAt)
      && (sorted[0].startAt == dayStart ==> list == sorted && !IsFiller(list[0]))
      && Shows(list) == Shows(sorted)
      && list[|list| - 1] == sorted[|sorted| - 1]
  {
    FiveOClockOfKey(day, tz);
    var sorted, dayStart := SortByStart(b), day + RolloverMs;
    EarliestOfDay(b, day, tz);
    var list := WithDayStart(sorted, FiveOClock(day, tz));
    if sorted[0].startAt > dayStart {
      var filler := Filler(dayStart, sorted[0].startAt - dayStart);
      assert list == [filler] + sorted;
      ShowsAppend([filler], sorted);
      assert Shows([filler]) == [];
    }
  }

  /** With non-negative durations the prepared list is sorted and has none negative. */
  lemma PreparedListOrdered(b: seq<Program>, day: int, tz: int)
    requires ChannelInput(b, day, tz) && NonNegDurations(b)
    ensures var list := WithDayStart(SortByStart(b), FiveOClock(day, tz));
      SortedByStart(list) && NonNegDurations(list)
  {
    var sorted := SortByStart(b);
    PreparedList(b, day, tz);
    SortByStartSorts(b);
    SortKeepsNonNeg(b);
    var list := WithDayStart(sorted, FiveOClock(day, tz));
    if list != sorted {
      forall j, k | 0 <= j < k < |list| ensures list[j].startAt <= list[k].startAt {
        assert list[k] == sorted[k - 1];
        if 0 < j {
          assert list[j] == sorted[j - 1];
        }
      }
      forall j | 0 < j < |list| ensures list[j].duration >= 0 {
        assert list[j] == sorted[j - 1];
      }
    }
  }

  /**
   * A normalised channel list begins exactly at its day's 05:00; its head is
   * a filler covering `[05:00, first start)` exactly when the first
   * programme starts later.
   */
  lemma {:induction false} ChannelStartsAtFive(b: seq<Program>, day: int, tz: int)
    requires ChannelInput(b, day, tz)
    ensures var r, sorted, dayStart := Normalized(b, day, tz), SortByStart(b), day + RolloverMs;
      && r[0].startAt == dayStart
      && (IsFiller(r[0]) <==> sorted[0].startAt > dayStart)
      && (sorted[0].startAt > dayStart ==> r[0] == Filler(dayStart, sorted[0].startAt - dayStart))
  {
    PreparedList(b, day, tz);
    var list := WithDayStart(SortByStart(b), FiveOClock(day, tz));
    WalkHead(list, |list|);
  }

  /**
   * Once fillers are set aside, a normalised channel list is its bucket in
   * start order, durations aside: no programme is lost, duplicated or
   * added.
   */
  lemma {:induction false} ChannelKeepsPrograms(b: seq<Program>, day: int, tz: int)
    requires ChannelInput(b, day, tz)
    ensures Shows(Normalized(b, day, tz)) == Shows(SortByStart(b))
  {
    PreparedList(b, day, tz);
    var list := WithDayStart(SortByStart(b), FiveOClock(day, tz));
    WalkShows(list, |list|);
  }

  /**
   * Trimming only ever shortens: the real programmes of a normalised channel
   * list are its bucket in start order, each with a duration no longer than
   * the one the backend reported.
   */
  lemma ChannelOnlyShortens(b: seq<Program>, day: int, tz: int)
    requires ChannelInput(b, day, tz)
    ensures ShortenedFrom(Real(Normalized(b, day, tz)), SortByStart(b))
  {
    var list := WithDayStart(SortByStart(b), FiveOClock(day, tz));
    PreparedReal(b, day, tz);
    WalkOnlyShortens(list, |list|);
  }

  /** The real programmes of the list before the walk are the sorted bucket. */
  lemma PreparedReal(b: seq<Program>, day: int, tz: int)
    requires ChannelInput(b, day, tz)
    ensures Real(WithDayStart(SortByStart(b), FiveOClock(day, tz))) == SortByStart(b)
  {
    var sorted := SortByStart(b);
    var list := WithDayStart(sorted, FiveOClock(day, tz));
    SortByStartPermutes(b);
    forall j | 0 <= j < |sorted| ensures !IsFiller(sorted[j]) {
      assert sorted[j] in multiset(b);
    }
    RealOfNamed(sorted);
    if list != sorted {
      assert list == [list[0]] + sorted;
      RealAppend([list[0]], sorted);
    }
  }

  /**
   * A kept record is listed, possibly cut short, among the real programmes of
   * the channel list of its own day, network and service.
   */
  lemma KeptShownInGrid(ps: seq<Program>, now: int, tz: int, x: Program)
    requires x in ps && Kept(x, Threshold(now, tz))
    ensures var d, n, s := DayKey(x.startAt, tz), x.networkId.value, x.serviceId.value;
      var b := Select(ps, Threshold(now, tz), tz, d, n, s);
      b != [] && Erase(x) in Shows(Normalized(b, d, tz))
  {
    var th := Threshold(now, tz);
    var d, n, s := DayKey(x.startAt, tz), x.networkId.value, x.serviceId.value;
    var b := Select(ps, th, tz, d, n, s);
    KeptInExactlyOneBucket(ps, th, tz, x);
    BucketIsChannelInput(ps, now, tz, d, n, s);
    ChannelKeepsPrograms(b, d, tz);
    SortByStartPermutes(b);
    assert x in multiset(SortByStart(b));
    ShowsHas(SortByStart(b), x);
  }

  /** No filler follows the last programme: a channel list ends with the bucket's latest programme. */
  lemma {:induction false} ChannelEndsWithLastProgram(b: seq<Program>, day: int, tz: int)
    requires b != []
    ensures Normalized(b, day, tz)[|Normalized(b, day, tz)| - 1] == SortByStart(b)[|b| - 1]
  {
    var sorted := SortByStart(b);
    var list := WithDayStart(sorted, FiveOClock(day, tz));
    assert list[|list| - 1] == sorted[|sorted| - 1];
    WalkKeepsLast(list, |list|);
  }

  /**
   * Contiguity is guaranteed for every pair whose left index is below the
   * list's length when the walk began (the bucket plus the 05:00 filler).
   */
  lemma {:induction false} ChannelContiguity(b: seq<Program>, day: int, tz: int)
    requires ChannelInput(b, day, tz)
    ensures var r, sorted := Normalized(b, day, tz), SortByStart(b);
      Contiguous(r, 0, |b| + if sorted[0].startAt > day + RolloverMs then 1 else 0)
  {
    PreparedList(b, day, tz);
    var list := WithDayStart(SortByStart(b), FiveOClock(day, tz));
    WalkContiguous(list, |list|);
  }

  /** With non-negative input durations, a normalised channel list is sorted and has none negative. */
  lemma {:induction false} ChannelOrdered(b: seq<Program>, day: int, tz: int)
    requires ChannelInput(b, day, tz) && NonNegDurations(b)
    ensures SortedByStart(Normalized(b, day, tz)) && NonNegDurations(Normalized(b, day, tz))
  {
    PreparedListOrdered(b, day, tz);
    var list := WithDayStart(SortByStart(b), FiveOClock(day, tz));
    WalkSorted(list, |list|);
  }

  /**
   * A dropped record (stale or unidentified) appears nowhere in the grid:
   * not even with a cut duration among the real programmes of a channel list.
   */
  lemma DroppedNowhereInGrid(ps: seq<Program>, now: int, tz: int, d: int, n: int, s: int, x: Program)
    requires !Kept(x, Threshold(now, tz))
    requires Select(ps, Threshold(now, tz), tz, d, n, s) != []
    ensures Erase(x) !in Shows(Normalized(Select(ps, Threshold(now, tz), tz, d, n, s), d, tz))
  {
    var th := Threshold(now, tz);
    var b := Select(ps, th, tz, d, n, s);
    BucketIsChannelInput(ps, now, tz, d, n, s);
    ChannelKeepsPrograms(b, d, tz);
    var sorted := SortByStart(b);
    SortByStartPermutes(b);
    forall q | q in sorted && !IsFiller(q) ensures Kept(q, th) {
      assert q in multiset(sorted);
      SelectMembers(ps, th, tz, d, n, s, q);
    }
    ShowsOnlyKept(sorted, th);
  }
}
