/**
 * Per-channel trimming and gap filling: the walk over a sorted channel list
 * that shortens a programme overrunning the next one and splices a filler
 * into every remaining gap, editing the list it iterates over.
 */
module GapFill {
  import opened Optional
  import opened Programs

  /**
   * Overlap policy: a slot that runs past its successor's start is cut back
   * to end exactly there; only its duration changes.
   */
  function Trim(p: Program, next: Program): (r: Program)
    ensures Erase(r) == Erase(p)
    ensures End(r) <= next.startAt && (End(p) <= next.startAt ==> r == p)
    ensures End(p) > next.startAt ==> End(r) == next.startAt
    ensures p.startAt <= next.startAt && p.duration >= 0 ==> 0 <= r.duration <= p.duration
  {
    if End(p) > next.startAt then p.(duration := next.startAt - p.startAt) else p
  }

  /**
   * The list the walk goes on with after its callback at the head of `a`:
   * the successor onward, preceded by a filler covering the gap between the
   * trimmed head and the successor when one is left.
   */
  function Remainder(a: seq<Program>): (r: seq<Program>)
    requires 2 <= |a|
  {
    var cur := Trim(a[0], a[1]);
    if End(cur) == a[1].startAt then a[1..]
    else [Filler(End(cur), a[1].startAt - End(cur))] + a[1..]
  }

  /**
   * `forEach` over a list its callback edits, with `k` callbacks left: the
   * callback at the head trims it and splices in a filler behind it when a
   * gap is left, and the next callback runs at the following index, which
   * may be that filler. A callback on the last slot (no successor) does
   * nothing. The walk in the source has `k` equal to the length the list
   * had when it began, because `Array.prototype.forEach` fixes its range up
   * front.
   */
  function Walk(a: seq<Program>, k: nat): (r: seq<Program>)
    ensures |a| <= |r|
    decreases k
  {
    if k == 0 || |a| < 2 then a
    else [Trim(a[0], a[1])] + Walk(Remainder(a), k - 1)
  }

  /** The remainder starts where the trimmed head ends. */
  lemma RemainderAbuts(a: seq<Program>)
    requires 2 <= |a|
    ensures End(Trim(a[0], a[1])) == Remainder(a)[0].startAt
    ensures End(a[0]) == a[1].startAt ==> Remainder(a) == a[1..]
  {
  }

  lemma RemainderKeepsLast(a: seq<Program>)
    requires 2 <= |a|
    ensures Remainder(a)[|Remainder(a)| - 1] == a[|a| - 1]
  {
  }

  lemma RemainderShows(a: seq<Program>)
    requires 2 <= |a|
    ensures Shows(Remainder(a)) == Shows(a[1..])
  {
    var cur := Trim(a[0], a[1]);
    if End(cur) != a[1].startAt {
      ShowsAppend([Filler(End(cur), a[1].startAt - End(cur))], a[1..]);
    }
  }

  lemma RemainderSorted(a: seq<Program>)
    requires 2 <= |a|
    requires SortedByStart(a) && NonNegDurations(a)
    ensures SortedByStart(Remainder(a)) && NonNegDurations(Remainder(a))
    ensures a[0].startAt <= Remainder(a)[0].startAt
  {
    var cur := Trim(a[0], a[1]);
    var r := Remainder(a);
    if End(cur) != a[1].startAt {
      forall j, k | 0 <= j < k < |r| ensures r[j].startAt <= r[k].startAt {
        if 0 < j {
          assert r[j] == a[j] && r[k] == a[k];
        } else {
          assert r[k] == a[k];
        }
      }
      forall j | 0 < j < |r| ensures r[j].duration >= 0 {
        assert r[j] == a[j];
      }
    }
  }

  /**
   * Termination measure of the corrected walk: two per slot behind the
   * head, one less when the head already abuts its successor.
   */
  function Work(a: seq<Program>): nat {
    if |a| < 2 then 0 else 2 * |a| - 2 - (if End(a[0]) == a[1].startAt then 1 else 0)
  }

  lemma RemainderReducesWork(a: seq<Program>)
    requires 2 <= |a|
    ensures Work(Remainder(a)) < Work(a)
  {
    RemainderAbuts(a);
  }

  /**
   * The head of the walked list keeps everything but its duration, and a
   * head that already abuts its successor, such as the filler prepended at
   * 05:00, is left untouched.
   */
  lemma WalkHead(a: seq<Program>, k: nat)
    requires a != []
    ensures Erase(Walk(a, k)[0]) == Erase(a[0])
    ensures 2 <= |a| && End(a[0]) == a[1].startAt ==> Walk(a, k)[0] == a[0]
  {
  }

  /**
   * The overlap policy as applied by the walk: a head that overruns its
   * successor is cut to end at the successor's start, which in a sorted list
   * leaves a shorter, non-negative duration; otherwise it stays as it was.
   */
  lemma WalkTrims(a: seq<Program>, k: nat)
    requires 0 < k && 2 <= |a|
    ensures End(a[0]) > a[1].startAt ==>
      Walk(a, k)[0] == a[0].(duration := a[1].startAt - a[0].startAt)
    ensures End(a[0]) > a[1].startAt && a[0].startAt <= a[1].startAt ==>
      0 <= Walk(a, k)[0].duration < a[0].duration
    ensures End(a[0]) <= a[1].startAt ==> Walk(a, k)[0] == a[0]
  {
  }

  /**
   * The gap policy as applied by the walk: when the head ends before its
   * successor starts, the slot right behind it is a filler covering exactly
   * that gap and the successor follows; otherwise the successor itself
   * comes next.
   */
  lemma {:induction false} WalkFills(a: seq<Program>, k: nat)
    requires 0 < k && 2 <= |a|
    ensures End(a[0]) < a[1].startAt ==>
      && |Walk(a, k)| >= 3
      && Walk(a, k)[1] == Filler(End(a[0]), a[1].startAt - End(a[0]))
      && Erase(Walk(a, k)[2]) == Erase(a[1])
    ensures End(a[0]) >= a[1].startAt ==> Erase(Walk(a, k)[1]) == Erase(a[1])
  {
    var rem := Remainder(a);
    var w := Walk(rem, k - 1);
    assert Walk(a, k) == [Trim(a[0], a[1])] + w;
    RemainderAbuts(a);
    WalkHead(rem, k - 1);
    if End(a[0]) < a[1].startAt && 0 < k - 1 {
      assert rem[1..] == a[1..];
      assert Walk(rem, k - 1) == [rem[0]] + Walk(a[1..], k - 2);
      WalkHead(a[1..], k - 2);
    }
  }

  /**
   * Contiguity holds for every pair whose left index is below the number
   * of callbacks the walk ran.
   */
  lemma {:induction false} WalkContiguous(a: seq<Program>, k: nat)
    ensures Contiguous(Walk(a, k), 0, k)
    decreases k
  {
    if 0 < k && 2 <= |a| {
      var rem := Remainder(a);
      var w := Walk(rem, k - 1);
      var r := [Trim(a[0], a[1])] + w;
      assert Walk(a, k) == r;
      WalkContiguous(rem, k - 1);
      RemainderAbuts(a);
      WalkHead(rem, k - 1);
      forall j | 0 <= j < k && j + 1 < |r| ensures End(r[j]) == r[j + 1].startAt {
        if 0 < j {
          assert r[j] == w[j - 1] && r[j + 1] == w[j];
        } else {
          assert r[1] == w[0];
          assert Erase(w[0]).startAt == Erase(rem[0]).startAt;
        }
      }
    }
  }

  /**
   * Given at least `Work(a)` callbacks the walk reaches the end of the list,
   * and every adjacent pair of the result abuts.
   */
  lemma {:induction false} WalkSettles(a: seq<Program>, k: nat)
    requires Work(a) <= k
    ensures Contiguous(Walk(a, k), 0, |Walk(a, k)|)
    decreases k
  {
    if 2 <= |a| {
      var rem := Remainder(a);
      var w := Walk(rem, k - 1);
      var r := [Trim(a[0], a[1])] + w;
      assert Walk(a, k) == r;
      RemainderReducesWork(a);
      WalkSettles(rem, k - 1);
      RemainderAbuts(a);
      WalkHead(rem, k - 1);
      forall j | 0 <= j && j + 1 < |r| ensures End(r[j]) == r[j + 1].startAt {
        if 0 < j {
          assert r[j] == w[j - 1] && r[j + 1] == w[j];
        } else {
          assert r[1] == w[0];
          assert Erase(w[0]).startAt == Erase(rem[0]).startAt;
        }
      }
    }
  }

  /** Callbacks beyond `Work(a)` change nothing. */
  lemma {:induction false} WalkSaturates(a: seq<Program>, k: nat, k': nat)
    requires Work(a) <= k <= k'
    ensures Walk(a, k) == Walk(a, k')
    decreases k
  {
    if 2 <= |a| {
      RemainderReducesWork(a);
      WalkSaturates(Remainder(a), k - 1, k' - 1);
    }
  }

  /** The real programmes come out in the same order, durations aside. */
  lemma {:induction false} WalkShows(a: seq<Program>, k: nat)
    ensures Shows(Walk(a, k)) == Shows(a)
    decreases k
  {
    if 0 < k && 2 <= |a| {
      var cur := Trim(a[0], a[1]);
      var rem := Remainder(a);
      assert Walk(a, k) == [cur] + Walk(rem, k - 1);
      WalkShows(rem, k - 1);
      RemainderShows(a);
      ShowsAppend([cur], Walk(rem, k - 1));
      assert a == [a[0]] + a[1..];
      ShowsAppend([a[0]], a[1..]);
    }
  }

  lemma RemainderReal(a: seq<Program>)
    requires 2 <= |a|
    ensures Real(Remainder(a)) == Real(a[1..])
  {
    var cur := Trim(a[0], a[1]);
    if End(cur) != a[1].startAt {
      RealAppend([Filler(End(cur), a[1].startAt - End(cur))], a[1..]);
    }
  }

  /**
   * The walk only ever shortens: its real programmes are those of the input,
   * in order, each with a duration no longer than before.
   */
  lemma {:induction false} WalkOnlyShortens(a: seq<Program>, k: nat)
    ensures ShortenedFrom(Real(Walk(a, k)), Real(a))
    decreases k
  {
    if 0 < k && 2 <= |a| {
      var cur := Trim(a[0], a[1]);
      var rem := Remainder(a);
      assert Walk(a, k) == [cur] + Walk(rem, k - 1);
      RealAppend([cur], Walk(rem, k - 1));
      WalkOnlyShortens(rem, k - 1);
      RemainderReal(a);
      assert a == [a[0]] + a[1..];
      RealAppend([a[0]], a[1..]);
      assert ShortenedFrom(Real([cur]), Real([a[0]]));
      ShortenedConcat(Real([cur]), Real([a[0]]), Real(Walk(rem, k - 1)), Real(a[1..]));
    }
  }

  /** A sorted list without negative durations stays so. */
  lemma {:induction false} WalkSorted(a: seq<Program>, k: nat)
    requires SortedByStart(a) && NonNegDurations(a)
    ensures SortedByStart(Walk(a, k)) && NonNegDurations(Walk(a, k))
    decreases k
  {
    if 0 < k && 2 <= |a| {
      var cur := Trim(a[0], a[1]);
      var rem := Remainder(a);
      var w := Walk(rem, k - 1);
      var r := [cur] + w;
      assert Walk(a, k) == r;
      RemainderSorted(a);
      WalkSorted(rem, k - 1);
      WalkHead(rem, k - 1);
      assert cur.startAt <= w[0].startAt;
      forall j, l | 0 <= j < l < |r| ensures r[j].startAt <= r[l].startAt {
        assert r[l] == w[l - 1];
        if 0 < j {
          assert r[j] == w[j - 1];
        }
      }
      forall j | 0 <= j < |r| ensures r[j].duration >= 0 {
        if 0 < j {
          assert r[j] == w[j - 1];
        }
      }
    }
  }

  /** No filler is ever added after the last slot, which is left as it was. */
  lemma {:induction false} WalkKeepsLast(a: seq<Program>, k: nat)
    requires a != []
    ensures Walk(a, k)[|Walk(a, k)| - 1] == a[|a| - 1]
    decreases k
  {
    if 0 < k && 2 <= |a| {
      var rem := Remainder(a);
      RemainderKeepsLast(a);
      WalkKeepsLast(rem, k - 1);
    }
  }

  /**
   * The forEach callback at index `idx`, editing the list in place: the
   * slots before `idx` stay, the slot at `idx` is trimmed and the list goes
   * on with the remainder after it.
   */
  method VisitAt(arr: seq<Program>, idx: nat) returns (r: seq<Program>)
    requires idx < |arr|
    ensures idx + 1 == |arr| ==> r == arr
    ensures idx + 1 < |arr| ==>
      r == arr[..idx] + [Trim(arr[idx], arr[idx + 1])] + Remainder(arr[idx..])
  {
    r := arr;
    if idx + 1 >= |r| {
      return;
    }
    var prg := r[idx];
    var nextPrg := r[idx + 1];
    if prg.startAt + prg.duration > nextPrg.startAt {
      prg := prg.(duration := nextPrg.startAt - prg.startAt);
      r := r[idx := prg];
    }
    assert r == arr[..idx] + [prg] + arr[idx + 1..];
    if prg.startAt + prg.duration != nextPrg.startAt {
      var dummy := Filler(prg.startAt + prg.duration, nextPrg.startAt - (prg.startAt + prg.duration));
      r := r[..idx + 1] + [dummy] + r[idx + 1..];
    }
    VisitShape(arr, idx, prg, r);
  }

  /** The list left by the callback, read off piece by piece. */
  lemma VisitShape(arr: seq<Program>, idx: nat, prg: Program, r: seq<Program>)
    requires idx + 1 < |arr|
    requires prg == Trim(arr[idx], arr[idx + 1])
    requires End(prg) == arr[idx + 1].startAt ==> r == arr[..idx] + [prg] + arr[idx + 1..]
    requires End(prg) != arr[idx + 1].startAt ==>
      r == arr[..idx] + [prg] + [Filler(End(prg), arr[idx + 1].startAt - End(prg))] + arr[idx + 1..]
    ensures r == arr[..idx] + [prg] + Remainder(arr[idx..])
  {
    var rest := arr[idx..];
    assert rest[0] == arr[idx] && rest[1] == arr[idx + 1];
    assert rest[1..] == arr[idx + 1..];
    if End(prg) != arr[idx + 1].startAt {
      var filler := Filler(End(prg), arr[idx + 1].startAt - End(prg));
      assert Remainder(rest) == [filler] + arr[idx + 1..];
      AppendAssoc(arr[..idx] + [prg], [filler], arr[idx + 1..]);
    }
  }

  /** After the callback at `idx`, the walk still to run picks up at `idx + 1`. */
  lemma VisitAdvances(arr: seq<Program>, r: seq<Program>, idx: nat, k: nat)
    requires idx < |arr| && 0 < k
    requires idx + 1 == |arr| ==> r == arr
    requires idx + 1 < |arr| ==>
      r == arr[..idx] + [Trim(arr[idx], arr[idx + 1])] + Remainder(arr[idx..])
    ensures idx + 1 <= |r| && |arr| <= |r|
    ensures r[..idx + 1] + Walk(r[idx + 1..], k - 1) == arr[..idx] + Walk(arr[idx..], k)
  {
    var rest := arr[idx..];
    if idx + 1 < |arr| {
      var cur := Trim(arr[idx], arr[idx + 1]);
      var rem := Remainder(rest);
      var done := arr[..idx] + [cur];
      assert |done| == idx + 1 && |rem| >= |rest| - 1;
      assert r == done + rem;
      assert r[..idx + 1] == done;
      assert r[idx + 1..] == rem;
      assert rest[0] == arr[idx] && rest[1] == arr[idx + 1];
      assert Walk(rest, k) == [cur] + Walk(rem, k - 1);
      AppendAssoc(arr[..idx], [cur], Walk(rem, k - 1));
    } else {
      assert r[..idx + 1] == arr[..idx] + rest;
      assert r[idx + 1..] == [];
    }
  }

  /** Concatenation regroups freely. */
  lemma AppendAssoc(a: seq<Program>, b: seq<Program>, c: seq<Program>)
    ensures a + b + c == a + (b + c)
  {
  }

  /** One callback of the as-written walk keeps its loop invariant. */
  lemma FillGapsStep(prgs: seq<Program>, arr: seq<Program>, r: seq<Program>, idx: nat, n: nat)
    requires idx < n <= |arr|
    requires arr[..idx] + Walk(arr[idx..], n - idx) == Walk(prgs, n)
    requires idx + 1 == |arr| ==> r == arr
    requires idx + 1 < |arr| ==>
      r == arr[..idx] + [Trim(arr[idx], arr[idx + 1])] + Remainder(arr[idx..])
    ensures idx + 1 <= n <= |r|
    ensures r[..idx + 1] + Walk(r[idx + 1..], n - (idx + 1)) == Walk(prgs, n)
  {
    VisitAdvances(arr, r, idx, n - idx);
  }

  /** When the fixed range is used up, the list is the walk's result. */
  lemma FillGapsDone(prgs: seq<Program>, arr: seq<Program>, idx: nat, n: nat)
    requires idx == n <= |arr|
    requires arr[..idx] + Walk(arr[idx..], n - idx) == Walk(prgs, n)
    ensures arr == Walk(prgs, n)
  {
    assert arr[..idx] + arr[idx..] == arr;
  }

  /**
   * The walk as written: the range of indices is the list's length before
   * the walk, although fillers are spliced into the list during it.
   */
  method FillGaps(prgs: seq<Program>) returns (arr: seq<Program>)
    ensures arr == Walk(prgs, |prgs|)
  {
    arr := prgs;
    var n := |arr|;
    var idx := 0;
    assert arr[..idx] == [] && arr[idx..] == arr;
    while idx < n
      invariant idx <= n <= |arr|
      invariant arr[..idx] + Walk(arr[idx..], n - idx) == Walk(prgs, n)
    {
      var next := VisitAt(arr, idx);
      FillGapsStep(prgs, arr, next, idx, n);
      arr := next;
      idx := idx + 1;
    }
    FillGapsDone(prgs, arr, idx, n);
  }

  /**
   * The walk as evidently intended: the bound is re-read after every
   * callback, so the walk runs to the end of the list, fillers included, and
   * every adjacent pair ends up contiguous.
   */
  method FillAllGaps(prgs: seq<Program>) returns (arr: seq<Program>)
    ensures arr == Walk(prgs, Work(prgs))
    ensures Contiguous(arr, 0, |arr|)
  {
    arr := prgs;
    var idx := 0;
    while idx + 1 < |arr|
      invariant idx <= |arr|
      invariant arr[..idx] + Walk(arr[idx..], Work(arr[idx..])) == Walk(prgs, Work(prgs))
      decreases Work(arr[idx..])
    {
      var next := VisitAt(arr, idx);
      FillAllGapsStep(prgs, arr, next, idx);
      arr := next;
      idx := idx + 1;
    }
    FillAllGapsDone(prgs, arr, idx);
  }

  /** One callback of the corrected walk keeps its loop invariant and uses up work. */
  lemma FillAllGapsStep(prgs: seq<Program>, arr: seq<Program>, r: seq<Program>, idx: nat)
    requires idx + 1 < |arr|
    requires arr[..idx] + Walk(arr[idx..], Work(arr[idx..])) == Walk(prgs, Work(prgs))
    requires r == arr[..idx] + [Trim(arr[idx], arr[idx + 1])] + Remainder(arr[idx..])
    ensures idx + 1 <= |r|
    ensures r[..idx + 1] + Walk(r[idx + 1..], Work(r[idx + 1..])) == Walk(prgs, Work(prgs))
    ensures Work(r[idx + 1..]) < Work(arr[idx..])
  {
    var rest := arr[idx..];
    assert 2 <= |rest|;
    VisitAdvances(arr, r, idx, Work(rest));
    RemainderReducesWork(rest);
    assert r[idx + 1..] == Remainder(rest);
    WalkSaturates(Remainder(rest), Work(Remainder(rest)), Work(rest) - 1);
  }

  /** When the live bound is reached, the list is the settled walk and fully contiguous. */
  lemma FillAllGapsDone(prgs: seq<Program>, arr: seq<Program>, idx: nat)
    requires idx <= |arr| && idx + 1 >= |arr|
    requires arr[..idx] + Walk(arr[idx..], Work(arr[idx..])) == Walk(prgs, Work(prgs))
    ensures arr == Walk(prgs, Work(prgs))
    ensures Contiguous(arr, 0, |arr|)
  {
    assert |arr[idx..]| < 2;
    assert arr[..idx] + arr[idx..] == arr;
    WalkSettles(prgs, Work(prgs));
  }

  /**
   * With two gaps filled, the walk's fixed range runs out before the last
   * pair: four programmes each followed by a ten-unit gap come out with the
   * gap between the third and the fourth still open.
   */
  lemma WalkMissesLastGap()
    ensures var a := [Show(0, 10), Show(20, 10), Show(40, 10), Show(60, 10)];
            var r := Walk(a, |a|);
            |r| == 6 && End(r[4]) < r[5].startAt
  {
    var a := [Show(0, 10), Show(20, 10), Show(40, 10), Show(60, 10)];
    var a1 := [Filler(10, 10), Show(20, 10), Show(40, 10), Show(60, 10)];
    var a2 := [Show(20, 10), Show(40, 10), Show(60, 10)];
    var a3 := [Filler(30, 10), Show(40, 10), Show(60, 10)];
    var a4 := [Show(40, 10), Show(60, 10)];
    assert Remainder(a) == a1;
    assert Remainder(a1) == a2;
    assert Remainder(a2) == a3;
    assert Remainder(a3) == a4;
    assert Walk(a, 4) == [Show(0, 10), Filler(10, 10), Show(20, 10), Filler(30, 10)] + Walk(a4, 0);
  }

  /** A named programme on one channel, for the example above. */
  function Show(startAt: int, duration: int): Program {
    Program(None, None, Some(1), None, Some(1), startAt, duration, None, Some("show"), None)
  }
}
