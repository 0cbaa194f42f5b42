/**
 * The schedule grid: programme records grouped by broadcast day, then by
 * `networkId`, then by `serviceId` (a service id is unique only within its
 * network, ARIB TR-B15 Table 5-9), each channel list sorted, opened with a
 * filler from 05:00 when needed and walked for overlaps and gaps.
 */
module Grouping {
  import opened Optional
  import opened Calendar
  import opened Programs
  import opened GapFill

  /** Broadcast-day key, then network id, then service id, to the channel list. */
  type Grid = map<int, map<int, map<int, seq<Program>>>>

  /** JavaScript truthiness of an optional number: present and not zero. */
  predicate Truthy(o: Option<int>) {
    o.Some? && o.value != 0
  }

  /** JavaScript truthiness of an optional string: present and not empty. */
  predicate HasName(p: Program) {
    p.name.Some? && p.name.value != ""
  }

  /** The record is recent enough and carries a name, a network id and a service id. */
  predicate Kept(p: Program, threshold: int) {
    p.startAt >= threshold && HasName(p) && Truthy(p.networkId) && Truthy(p.serviceId)
  }

  /** The record is kept and its bucket is `[day][network][service]`. */
  predicate BelongsTo(p: Program, threshold: int, tz: int, day: int, network: int, service: int) {
    Kept(p, threshold) && DayKey(p.startAt, tz) == day
    && p.networkId == Some(network) && p.serviceId == Some(service)
  }

  /** The records of bucket `[day][network][service]`, in input order. */
  function Select(ps: seq<Program>, threshold: int, tz: int, day: int, network: int, service: int): seq<Program>
  {
    if ps == [] then []
    else
      Select(ps[..|ps| - 1], threshold, tz, day, network, service)
      + (if BelongsTo(ps[|ps| - 1], threshold, tz, day, network, service) then [ps[|ps| - 1]] else [])
  }

  predicate Has(g: Grid, day: int, network: int, service: int) {
    day in g && network in g[day] && service in g[day][network]
  }

  /** No channel list of one network is empty. */
  predicate NoEmptyLists(prgPerNw: map<int, seq<Program>>) {
    forall service | service in prgPerNw :: prgPerNw[service] != []
  }

  /** No channel list of one broadcast day is empty. */
  predicate NoEmptyDayLists(prgPerDay: map<int, map<int, seq<Program>>>) {
    forall network | network in prgPerDay :: NoEmptyLists(prgPerDay[network])
  }

  /** Buckets are created only when a record lands in them: no map or list is empty. */
  predicate NoEmptyBuckets(g: Grid) {
    forall day | day in g ::
      g[day] != map[] &&
      NoEmptyDayLists(g[day]) &&
      forall network | network in g[day] :: g[day][network] != map[]
  }

  lemma SelectSnoc(ps: seq<Program>, p: Program, threshold: int, tz: int, day: int, network: int, service: int)
    ensures Select(ps + [p], threshold, tz, day, network, service)
         == Select(ps, threshold, tz, day, network, service)
            + (if BelongsTo(p, threshold, tz, day, network, service) then [p] else [])
  {
    assert (ps + [p])[..|ps|] == ps;
  }

  /** The grid files exactly the records of `ps`, in input order, without empty buckets. */
  ghost predicate Files(g: Grid, ps: seq<Program>, threshold: int, tz: int) {
    && NoEmptyBuckets(g)
    && (forall d, n, s :: Has(g, d, n, s) <==> Select(ps, threshold, tz, d, n, s) != [])
    && (forall d, n, s | Has(g, d, n, s) :: g[d][n][s] == Select(ps, threshold, tz, d, n, s))
  }

  /**
   * `g'` is `g` with `p` appended to its bucket, the day map, the network
   * map and the list each created first when missing.
   */
  predicate Appended(g: Grid, g': Grid, p: Program, tz: int)
    requires p.networkId.Some? && p.serviceId.Some?
  {
    var date, network, service := DayKey(p.startAt, tz), p.networkId.value, p.serviceId.value;
    var mapPerDay := if date in g then g[date] else map[];
    var mapPerNetwork := if network in mapPerDay then mapPerDay[network] else map[];
    var prgs := if service in mapPerNetwork then mapPerNetwork[service] else [];
    g' == g[date := mapPerDay[network := mapPerNetwork[service := prgs + [p]]]]
  }

  /** Appending a kept record to its bucket, creating the maps on the way, files it. */
  lemma FileKept(g: Grid, g': Grid, ps: seq<Program>, p: Program, ps': seq<Program>, threshold: int, tz: int)
    requires Files(g, ps, threshold, tz) && Kept(p, threshold) && Appended(g, g', p, tz)
    requires ps' == ps + [p]
    ensures Files(g', ps', threshold, tz)
  {
    AppendedNoEmpty(g, g', p, tz);
    FileKeptHas(g, g', ps, p, threshold, tz);
    FileKeptLists(g, g', ps, p, threshold, tz);
  }

  lemma AppendedNoEmpty(g: Grid, g': Grid, p: Program, tz: int)
    requires NoEmptyBuckets(g) && p.networkId.Some? && p.serviceId.Some? && Appended(g, g', p, tz)
    ensures NoEmptyBuckets(g')
  {
  }

  lemma FileKeptHas(g: Grid, g': Grid, ps: seq<Program>, p: Program, threshold: int, tz: int)
    requires Files(g, ps, threshold, tz) && Kept(p, threshold) && Appended(g, g', p, tz)
    ensures forall d, n, s :: Has(g', d, n, s) <==> Select(ps + [p], threshold, tz, d, n, s) != []
  {
    forall d, n, s ensures Has(g', d, n, s) <==> Select(ps + [p], threshold, tz, d, n, s) != [] {
      SelectSnoc(ps, p, threshold, tz, d, n, s);
    }
  }

  lemma FileKeptLists(g: Grid, g': Grid, ps: seq<Program>, p: Program, threshold: int, tz: int)
    requires Files(g, ps, threshold, tz) && Kept(p, threshold) && Appended(g, g', p, tz)
    ensures forall d, n, s | Has(g', d, n, s) :: g'[d][n][s] == Select(ps + [p], threshold, tz, d, n, s)
  {
    forall d, n, s | Has(g', d, n, s) ensures g'[d][n][s] == Select(ps + [p], threshold, tz, d, n, s) {
      SelectSnoc(ps, p, threshold, tz, d, n, s);
    }
  }

  /** Skipping a dropped record leaves the filing unchanged. */
  lemma SkipDropped(g: Grid, ps: seq<Program>, p: Program, ps': seq<Program>, threshold: int, tz: int)
    requires Files(g, ps, threshold, tz) && !Kept(p, threshold)
    requires ps' == ps + [p]
    ensures Files(g, ps', threshold, tz)
  {
    forall d, n, s ensures Select(ps', threshold, tz, d, n, s) == Select(ps, threshold, tz, d, n, s) {
      SelectSnoc(ps, p, threshold, tz, d, n, s);
    }
  }

  /**
   * The body of the reduce callback for a kept record: look up or create
   * the day map, then the network map, then the list, and push the record.
   */
  method FileRecord(g: Grid, program: Program, tz: int) returns (g': Grid)
    requires program.networkId.Some? && program.serviceId.Some?
    ensures Appended(g, g', program, tz)
  {
    var date := DayKey(program.startAt, tz);
    var network := program.networkId.value;
    var service := program.serviceId.value;
    var mapPerDay := if date in g then g[date] else map[];
    var mapPerNetwork := if network in mapPerDay then mapPerDay[network] else map[];
    var prgs := if service in mapPerNetwork then mapPerNetwork[service] else [];
    g' := g[date := mapPerDay[network := mapPerNetwork[service := prgs + [program]]]];
  }

  /** The reduce over the input list that files every kept record into its bucket. */
  method Bucket(programs: seq<Program>, threshold: int, tz: int) returns (g: Grid)
    ensures NoEmptyBuckets(g)
    ensures forall d, n, s :: Has(g, d, n, s) <==> Select(programs, threshold, tz, d, n, s) != []
    ensures forall d, n, s | Has(g, d, n, s) :: g[d][n][s] == Select(programs, threshold, tz, d, n, s)
  {
    g := map[];
    var i := 0;
    while i < |programs|
      invariant i <= |programs|
      invariant Files(g, programs[..i], threshold, tz)
    {
      var program := programs[i];
      assert programs[..i + 1] == programs[..i] + [program];
      if program.startAt < threshold || !HasName(program) || !Truthy(program.networkId) || !Truthy(program.serviceId) {
        SkipDropped(g, programs[..i], program, programs[..i + 1], threshold, tz);
      } else {
        var g' := FileRecord(g, program, tz);
        FileKept(g, g', programs[..i], program, programs[..i + 1], threshold, tz);
        g := g';
      }
      i := i + 1;
    }
    assert programs[..i] == programs;
  }

  /** A channel list opened with a filler from 05:00 when its first programme starts later. */
  function WithDayStart(prgs: seq<Program>, dayStart: int): seq<Program>
    requires prgs != []
  {
    var timespan := prgs[0].startAt - dayStart;
    if timespan > 0 then [Filler(dayStart, timespan)] + prgs else prgs
  }

  /** The normalised channel list of one bucket: sorted, opened at 05:00, walked. */
  function Normalized(prgs: seq<Program>, day: int, tz: int): (r: seq<Program>)
    requires prgs != []
    ensures |prgs| <= |r|
  {
    var list := WithDayStart(SortByStart(prgs), FiveOClock(day, tz));
    Walk(list, |list|)
  }

  /** Post-processing of one channel list: sort, prepend the 05:00 filler, walk. */
  method NormalizeChannel(prgs: seq<Program>, day: int, tz: int) returns (arr: seq<Program>)
    requires prgs != []
    ensures arr == Normalized(prgs, day, tz)
  {
    arr := SortByStart(prgs);
    var dayStart := FiveOClock(day, tz);
    var timespan := arr[0].startAt - dayStart;
    if timespan > 0 {
      var dummy := Filler(dayStart, timespan);
      arr := [dummy] + arr;
    }
    arr := FillGaps(arr);
  }

  /** `out` holds the normal form of every channel list of one network. */
  ghost predicate NetworkNormalized(out: map<int, seq<Program>>, prgPerNw: map<int, seq<Program>>, day: int, tz: int) {
    && out.Keys == prgPerNw.Keys
    && forall s | s in prgPerNw :: prgPerNw[s] != [] && out[s] == Normalized(prgPerNw[s], day, tz)
  }

  /** `out` holds every network of one broadcast day in normal form. */
  ghost predicate DayNormalized(out: map<int, map<int, seq<Program>>>, prgPerDay: map<int, map<int, seq<Program>>>, day: int, tz: int) {
    && out.Keys == prgPerDay.Keys
    && forall n | n in prgPerDay :: NetworkNormalized(out[n], prgPerDay[n], day, tz)
  }

  /** `out` holds every broadcast day of `g` in normal form. */
  ghost predicate GridNormalized(out: Grid, g: Grid, tz: int) {
    && out.Keys == g.Keys
    && forall d | d in g :: DayNormalized(out[d], g[d], d, tz)
  }

  /** A normalised grid has the buckets of the original, none of them empty. */
  lemma GridNormalizedShape(out: Grid, g: Grid, tz: int)
    requires NoEmptyBuckets(g) && GridNormalized(out, g, tz)
    ensures NoEmptyBuckets(out)
    ensures forall d, n, s :: Has(out, d, n, s) <==> Has(g, d, n, s)
    ensures forall d, n, s | Has(g, d, n, s) :: out[d][n][s] == Normalized(g[d][n][s], d, tz)
  {
    forall d | d in out
      ensures DayNormalized(out[d], g[d], d, tz) && out[d].Keys == g[d].Keys
      ensures forall n | n in out[d] :: NetworkNormalized(out[d][n], g[d][n], d, tz)
    {
    }
  }

  lemma SomeKey(keys: set<int>)
    requires keys != {}
    ensures exists k :: k in keys
  {
    if forall k :: k !in keys {
      assert false;
    }
  }

  /** The innermost `forEach`: every channel list of one network, replaced by its normal form. */
  method NormalizeNetwork(prgPerNw: map<int, seq<Program>>, day: int, tz: int) returns (out: map<int, seq<Program>>)
    requires NoEmptyLists(prgPerNw)
    ensures NetworkNormalized(out, prgPerNw, day, tz)
  {
    out := prgPerNw;
    var todo := prgPerNw.Keys;
    while todo != {}
      invariant todo <= prgPerNw.Keys && out.Keys == prgPerNw.Keys
      invariant forall s | s in prgPerNw ::
        out[s] == if s in todo then prgPerNw[s] else Normalized(prgPerNw[s], day, tz)
    {
      SomeKey(todo);
      var service :| service in todo;
      var prgs := NormalizeChannel(out[service], day, tz);
      out := out[service := prgs];
      todo := todo - {service};
    }
  }

  /** The middle `forEach`: every network of one broadcast day. */
  method NormalizeDay(prgPerDay: map<int, map<int, seq<Program>>>, day: int, tz: int)
    returns (out: map<int, map<int, seq<Program>>>)
    requires NoEmptyDayLists(prgPerDay)
    ensures DayNormalized(out, prgPerDay, day, tz)
  {
    out := prgPerDay;
    var todo := prgPerDay.Keys;
    while todo != {}
      invariant todo <= prgPerDay.Keys && out.Keys == prgPerDay.Keys
      invariant forall n | n in prgPerDay && n !in todo :: NetworkNormalized(out[n], prgPerDay[n], day, tz)
    {
      SomeKey(todo);
      var network :| network in todo;
      var prgPerNw := NormalizeNetwork(prgPerDay[network], day, tz);
      out := out[network := prgPerNw];
      todo := todo - {network};
    }
  }

  /** The outer `forEach`: every broadcast day of the grid. */
  method NormalizeGrid(g: Grid, tz: int) returns (out: Grid)
    requires forall d | d in g :: NoEmptyDayLists(g[d])
    ensures GridNormalized(out, g, tz)
  {
    out := g;
    var todo := g.Keys;
    while todo != {}
      invariant todo <= g.Keys && out.Keys == g.Keys
      invariant forall d | d in g && d !in todo :: DayNormalized(out[d], g[d], d, tz)
    {
      SomeKey(todo);
      var day :| day in todo;
      var prgPerDay := NormalizeDay(g[day], day, tz);
      out := out[day := prgPerDay];
      todo := todo - {day};
    }
  }

  /**
   * `groupPrograms`: an absent list gives the empty grid; otherwise the
   * buckets are exactly the non-empty `Select`s, each holding the normal
   * form of its records.
   */
  method GroupPrograms(programs: Option<seq<Program>>, now: int, tz: int) returns (grid: Grid)
    ensures programs.None? ==> grid == map[]
    ensures NoEmptyBuckets(grid)
    ensures programs.Some? ==> forall d, n, s ::
      Has(grid, d, n, s) <==> Select(programs.value, Threshold(now, tz), tz, d, n, s) != []
    ensures programs.Some? ==> forall d, n, s | Has(grid, d, n, s) ::
      grid[d][n][s] == Normalized(Select(programs.value, Threshold(now, tz), tz, d, n, s), d, tz)
  {
    if programs.None? {
      return map[];
    }
    var today5 := Threshold(now, tz);
    var groupedPrograms := Bucket(programs.value, today5, tz);
    grid := NormalizeGrid(groupedPrograms, tz);
    GridNormalizedShape(grid, groupedPrograms, tz);
  }
}
