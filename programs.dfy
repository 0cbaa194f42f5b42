/**
 * The programme record returned by the tuner backend's programme list, the
 * synthetic filler slot, and the order and shape predicates the schedule
 * grid is built to satisfy.
 */
module Programs {
  import opened Optional

  /**
   * One broadcast event. `startAt` and `duration` are milliseconds. The
   * descriptive payload (extended text, video, audio and genre descriptors) is
   * opaque to the schedule engine and is not carried.
   */
  datatype Program = Program(
    id: Option<int>,
    eventId: Option<int>,
    serviceId: Option<int>,
    transportStreamId: Option<int>,
    networkId: Option<int>,
    startAt: int,
    duration: int,
    isFree: Option<bool>,
    name: Option<string>,
    description: Option<string>)

  /** A slot with only `startAt` and `duration` set, covering unlisted time. */
  function Filler(startAt: int, duration: int): (f: Program)
    ensures IsFiller(f) && f.startAt == startAt && f.duration == duration
  {
    Program(None, None, None, None, None, startAt, duration, None, None, None)
  }

  /** Fillers are told apart from real programmes only by their missing name. */
  predicate IsFiller(p: Program) {
    p.name.None?
  }

  /** The instant the slot ends. */
  function End(p: Program): int {
    p.startAt + p.duration
  }

  /** A programme with its duration forgotten: what trimming cannot change. */
  function Erase(p: Program): Program {
    p.(duration := 0)
  }

  /** The real programmes of a channel list, in order, durations forgotten. */
  function Shows(s: seq<Program>): seq<Program> {
    if s == [] then []
    else (if IsFiller(s[0]) then [] else [Erase(s[0])]) + Shows(s[1..])
  }

  lemma {:induction false} ShowsAppend(s: seq<Program>, t: seq<Program>)
    ensures Shows(s + t) == Shows(s) + Shows(t)
  {
    if s == [] {
      assert s + t == t;
    } else {
      assert (s + t)[1..] == s[1..] + t;
      ShowsAppend(s[1..], t);
    }
  }

  /** A real programme of a list is still listed once fillers are set aside. */
  lemma {:induction false} ShowsHas(s: seq<Program>, x: Program)
    requires x in s && !IsFiller(x)
    ensures Erase(x) in Shows(s)
  {
    if s[0] != x {
      assert x in s[1..];
      ShowsHas(s[1..], x);
    }
  }

  /** The real programmes of a channel list, in order, durations kept. */
  function Real(s: seq<Program>): seq<Program> {
    if s == [] then []
    else (if IsFiller(s[0]) then [] else [s[0]]) + Real(s[1..])
  }

  lemma {:induction false} RealAppend(s: seq<Program>, t: seq<Program>)
    ensures Real(s + t) == Real(s) + Real(t)
  {
    if s == [] {
      assert s + t == t;
    } else {
      assert (s + t)[1..] == s[1..] + t;
      RealAppend(s[1..], t);
    }
  }

  /** A list without fillers is its own list of real programmes. */
  lemma {:induction false} RealOfNamed(s: seq<Program>)
    requires forall j :: 0 <= j < |s| ==> !IsFiller(s[j])
    ensures Real(s) == s
  {
    if s != [] {
      RealOfNamed(s[1..]);
    }
  }

  /**
   * `o` is `p` with some durations shortened: element by element the same
   * programme, never longer.
   */
  predicate ShortenedFrom(o: seq<Program>, p: seq<Program>) {
    |o| == |p| && forall i :: 0 <= i < |o| ==> Erase(o[i]) == Erase(p[i]) && o[i].duration <= p[i].duration
  }

  lemma ShortenedConcat(o: seq<Program>, p: seq<Program>, o': seq<Program>, p': seq<Program>)
    requires ShortenedFrom(o, p) && ShortenedFrom(o', p')
    ensures ShortenedFrom(o + o', p + p')
  {
    forall i | 0 <= i < |o + o'|
      ensures Erase((o + o')[i]) == Erase((p + p')[i]) && (o + o')[i].duration <= (p + p')[i].duration
    {
      if i >= |o| {
        assert (o + o')[i] == o'[i - |o|] && (p + p')[i] == p'[i - |p|];
      }
    }
  }

  predicate SortedByStart(s: seq<Program>) {
    forall j, k :: 0 <= j < k < |s| ==> s[j].startAt <= s[k].startAt
  }

  predicate NonNegDurations(s: seq<Program>) {
    forall j :: 0 <= j < |s| ==> s[j].duration >= 0
  }

  /** Every adjacent pair `(j, j + 1)` with `lo <= j < hi` abuts exactly. */
  predicate Contiguous(s: seq<Program>, lo: int, hi: int) {
    forall j :: lo <= j < hi && 0 <= j && j + 1 < |s| ==> End(s[j]) == s[j + 1].startAt
  }

  /** Insert `p` before the first element that does not start earlier. */
  function Insert(p: Program, s: seq<Program>): (r: seq<Program>)
    ensures |r| == |s| + 1
  {
    if s == [] then [p]
    else if p.startAt <= s[0].startAt then [p] + s
    else
      assert s == [s[0]] + s[1..];
      [s[0]] + Insert(p, s[1..])
  }

  lemma {:induction false} InsertPermutes(p: Program, s: seq<Program>)
    ensures multiset(Insert(p, s)) == multiset(s) + multiset{p}
  {
    if s != [] && p.startAt > s[0].startAt {
      var rest := Insert(p, s[1..]);
      InsertPermutes(p, s[1..]);
      assert Insert(p, s) == [s[0]] + rest;
      assert multiset([s[0]] + rest) == multiset{s[0]} + multiset(rest);
      assert s == [s[0]] + s[1..];
      assert multiset(s) == multiset{s[0]} + multiset(s[1..]);
    }
  }

  /** Inserting an element above a lower bound keeps every element above it. */
  lemma {:induction false} InsertAbove(p: Program, s: seq<Program>, lo: int)
    requires lo <= p.startAt
    requires forall j :: 0 <= j < |s| ==> lo <= s[j].startAt
    ensures forall j :: 0 <= j < |Insert(p, s)| ==> lo <= Insert(p, s)[j].startAt
  {
    if s != [] && p.startAt > s[0].startAt {
      InsertAbove(p, s[1..], lo);
      var r := Insert(p, s);
      forall j | 0 < j < |r| ensures lo <= r[j].startAt {
        assert r[j] == Insert(p, s[1..])[j - 1];
      }
    }
  }

  lemma {:induction false} InsertSorted(p: Program, s: seq<Program>)
    requires SortedByStart(s)
    ensures SortedByStart(Insert(p, s))
  {
    if s != [] && p.startAt > s[0].startAt {
      var rest := Insert(p, s[1..]);
      InsertSorted(p, s[1..]);
      InsertAbove(p, s[1..], s[0].startAt);
      var r := [s[0]] + rest;
      forall j, k | 0 <= j < k < |r| ensures r[j].startAt <= r[k].startAt {
        assert r[k] == rest[k - 1];
        if 0 < j {
          assert r[j] == rest[j - 1];
        }
      }
    }
  }

  /**
   * `prgs.sort((a, b) => a.startAt - b.startAt)`: a stable sort by start
   * time (insertion sort keeps programmes with equal starts in input order).
   */
  function SortByStart(s: seq<Program>): (r: seq<Program>)
    ensures |r| == |s|
  {
    if s == [] then [] else Insert(s[0], SortByStart(s[1..]))
  }

  /** The sort orders by start time. */
  lemma {:induction false} SortByStartSorts(s: seq<Program>)
    ensures SortedByStart(SortByStart(s))
  {
    if s != [] {
      SortByStartSorts(s[1..]);
      InsertSorted(s[0], SortByStart(s[1..]));
    }
  }

  /** The sort neither loses, duplicates nor invents a programme. */
  lemma {:induction false} SortByStartPermutes(s: seq<Program>)
    ensures multiset(SortByStart(s)) == multiset(s)
  {
    if s != [] {
      SortByStartPermutes(s[1..]);
      InsertPermutes(s[0], SortByStart(s[1..]));
      assert s == [s[0]] + s[1..];
    }
  }

  /** Sorting cannot introduce a negative duration. */
  lemma SortKeepsNonNeg(s: seq<Program>)
    requires NonNegDurations(s)
    ensures NonNegDurations(SortByStart(s))
  {
    var r := SortByStart(s);
    SortByStartPermutes(s);
    forall j | 0 <= j < |r| ensures r[j].duration >= 0 {
      assert r[j] in multiset(s);
    }
  }
}
