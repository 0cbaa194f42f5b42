# Programme guide schedule grid and tuner status, in Dafny

This project models the two pieces of logic in a web viewer for a TV tuner
backend's electronic programme guide.

The first is `groupPrograms`. It turns the backend's flat, unordered list
of programme records into a grid. The grid is keyed by broadcast day, then
by `networkId`, then by `serviceId`. A broadcast day rolls over at 05:00
local time, not at midnight. The steps are:

- Records that are stale, or that lack a name, network id or service id,
  are dropped.
- Every other record is pushed into its bucket. The maps on the way are
  created only when first needed.
- Each channel list is sorted by start time.
- A nameless filler is prepended when the first programme starts after
  05:00.
- A `forEach` walk over the list visits adjacent pairs. For each visited
  pair it trims a duration that overruns the next start, and it splices a
  filler into a gap that remains. The walk does not reach every pair (see
  Findings).

The view also opens on the tab of the current broadcast day, which uses the
same day key.

The second is `getStatusColor`. It maps a tuner's flags and its first
user's priority to one of five colour labels.

The modules follow the program's structure:

- `Calendar` (`calendar.dfy`): local midnight with a fixed UTC offset, the
  broadcast-day key, the 05:00 of a day and the staleness threshold.
- `Programs` (`programs.dfy`): the programme record, the filler, and the
  stable sort by start time.
- `GapFill` (`gapfill.dfy`): the walk. `Walk(a, k)` specifies the walk over
  list `a` with `k` callbacks left. `FillGaps` is the as-written loop, which
  edits the list while it iterates over it. `FillAllGaps` is the walk as
  evidently intended.
- `Grouping` (`grouping.dfy`): the bucketing `reduce`, the three nested
  `forEach` passes that normalise every channel list, and `GroupPrograms`.
  `Select(ps, threshold, tz, d, n, s)` is the reference definition of a
  bucket: the records of `ps` that belong under key `[d][n][s]`, in input
  order.
- `ScheduleFacts` (`schedule_facts.dfy`): what the grid promises, stated as
  lemmas on `Select` and `Normalized`.
- `TunerStatus` (`tuner_status.dfy`): the tuner status colour.

Timestamps are integer milliseconds. Local time is a fixed offset `tz` from
UTC. The current time `now` is a parameter.

## Model

| member | source | states |
|---|---|---|
| Calendar.Midnight | src/ProgramView.tsx:29 | `setHours(0, 0, 0, 0)` gives a local midnight no later than the instant and less than a day before it |
| Calendar.MidnightIsLatest | src/ProgramView.tsx:29 | every local midnight not after `t` is at or before `Midnight(t)` |
| Calendar.MidnightUnique | src/ProgramView.tsx:29 | a local midnight `a` with `a <= t < a + 24h` is the midnight of `t` |
| Calendar.DayKey | src/ProgramView.tsx:28-29 | the broadcast-day key is a local midnight `k` with `k + 5h <= t < k + 29h` |
| Calendar.FiveOClock | src/ProgramView.tsx:56 | `setHours(5, 0, 0, 0)` gives 05:00 of the instant's own date: five hours after a local midnight that is no later than the instant and less than a day before it |
| Calendar.FiveOClockOfKey | src/ProgramView.tsx:56 | on a day key, `setHours(5, 0, 0, 0)` gives the key plus five hours |
| Calendar.Threshold | src/ProgramView.tsx:19-20 | the cutoff is 05:00 of the current broadcast day: `DayKey(now) + 5h`, not after `now` and less than a day before it |
| Calendar.ThresholdMatchesDayKey | src/ProgramView.tsx:20-29 | a start time passes the cutoff exactly when its broadcast day is not before the day of `now` |
| Calendar.RolloverAtFive | src/ProgramView.tsx:28-29 | 04:59:59.999 belongs to the previous broadcast day, and 05:00 to the day of its own date |
| Programs.Filler | src/ProgramView.tsx:59-62 | a filler has the given start and duration and no name, so it is told apart from a real programme |
| Programs.SortByStart | src/ProgramView.tsx:54 | the sort keeps the length; `SortByStartSorts` and `SortByStartPermutes` state that it orders by `startAt` and permutes its input |
| Programs.SortByStartSorts | src/ProgramView.tsx:54 | the sorted list is ordered by `startAt` |
| Programs.SortByStartPermutes | src/ProgramView.tsx:54 | the sorted list is a permutation of the bucket |
| Programs.SortKeepsNonNeg | src/ProgramView.tsx:54 | sorting introduces no negative duration |
| GapFill.Remainder | src/ProgramView.tsx:70-80 | the list the walk goes on with after one callback; `RemainderAbuts` states that it starts where the trimmed slot ends and is the plain successor list when there is no gap, `RemainderShows` that it adds no real programme, `RemainderReducesWork` that it leaves less work |
| GapFill.Walk | src/ProgramView.tsx:66-81 | `forEach` with its callback over a list it edits; the result is never shorter than the input, and the `Walk` lemmas below state its trimming, filling, contiguity and order |
| GapFill.Trim | src/ProgramView.tsx:70-72 | a slot that overruns the next start is cut to end exactly there, and only its duration changes; a slot that does not overrun is unchanged; in sorted input the new duration lies between zero and the old one |
| GapFill.WalkTrims | src/ProgramView.tsx:70-72 | the walk's first slot is cut to `next.startAt - cur.startAt` when it overruns, with a duration between zero and its old one when the starts are sorted, and is unchanged otherwise |
| GapFill.WalkFills | src/ProgramView.tsx:74-80 | when a gap remains after the first slot, a filler covering exactly `[end, next start)` follows it and then the next programme; otherwise the next programme follows directly |
| GapFill.WalkHead | src/ProgramView.tsx:66-72 | the first slot keeps everything but its duration, and is unchanged when it already abuts its successor |
| GapFill.WalkContiguous | src/ProgramView.tsx:66-81 | with `k` callbacks, every adjacent pair whose left index is below `k` abuts exactly |
| GapFill.WalkShows | src/ProgramView.tsx:66-81 | with the fillers removed, the walked list is the input list, durations aside: nothing is lost, duplicated or reordered |
| GapFill.WalkOnlyShortens | src/ProgramView.tsx:70-80 | the walk's real programmes are those of its input, in order, each the same record with a duration no longer than before |
| GapFill.WalkSorted | src/ProgramView.tsx:66-81 | a sorted list with no negative duration stays sorted with no negative duration |
| GapFill.WalkKeepsLast | src/ProgramView.tsx:67-68 | the last slot is left as it was and no filler is added after it |
| GapFill.VisitAt | src/ProgramView.tsx:66-80 | the callback at `idx` keeps the slots before it, trims the slot at `idx` against its successor, and continues with that successor, preceded by a filler when a gap is left; on the last slot it changes nothing |
| GapFill.FillGaps | src/ProgramView.tsx:66-81 | the in-place walk, bounded by the length captured when it begins, yields `Walk(prgs, n)`, where `n` is the initial length of `prgs` |
| GapFill.WalkSaturates | src/ProgramView.tsx:66-81 | once `Work(a)` callbacks have run, more callbacks change nothing |
| GapFill.WalkSettles | src/ProgramView.tsx:66-81 | with at least `Work(a)` callbacks, every adjacent pair of the result abuts |
| GapFill.FillAllGaps | src/ProgramView.tsx:66-81 | the walk with the bound re-read after each callback yields `Walk(prgs, Work(prgs))`, and every adjacent pair abuts |
| GapFill.WalkMissesLastGap | src/ProgramView.tsx:66-81 | four programmes, each followed by a gap, come out of the as-written walk with six slots and the last gap still open |
| Grouping.Kept | src/ProgramView.tsx:25 | a record is kept when it starts at or after the cutoff and its name, network id and service id are all truthy (present, not empty, not zero); `ThresholdMatchesDayKey` states the time test as "broadcast day not before today's", and `DroppedInNoBucket` that a record failing it lies in no bucket |
| Grouping.FileRecord | src/ProgramView.tsx:29-46 | the callback pushes a kept record onto the list at `[dayKey][networkId][serviceId]`, creating the day map, the network map and the list when missing |
| Grouping.AppendedNoEmpty | src/ProgramView.tsx:31-46 | maps and lists are created only on the way to a push, so none is ever empty |
| Grouping.FileKept | src/ProgramView.tsx:29-46 | after a kept record is pushed, the grid files exactly the records seen so far |
| Grouping.SkipDropped | src/ProgramView.tsx:24-27 | a stale or unidentified record leaves the grid unchanged |
| Grouping.Bucket | src/ProgramView.tsx:22-49 | the buckets are exactly the non-empty `Select`s; each holds its `Select` in input order; no map or list is empty |
| Grouping.NormalizeChannel | src/ProgramView.tsx:53-81 | a channel list is sorted, opened with a filler from 05:00 when needed, then walked; the result is `Normalized` |
| Grouping.WithDayStart | src/ProgramView.tsx:56-64 | the list with a filler from 05:00 prepended when the first programme starts later; `PreparedList` states its shape and `PreparedReal` that it adds no real programme |
| Grouping.Normalized | src/ProgramView.tsx:53-81 | the normal form of one bucket, never shorter than the bucket; the `Channel` lemmas state its start at 05:00, its programmes, its last slot, its contiguity and its order |
| Grouping.NormalizeNetwork | src/ProgramView.tsx:52 | every channel list of one network is replaced by its normal form, and the keys are kept |
| Grouping.NormalizeDay | src/ProgramView.tsx:52 | every network of one broadcast day is normalised, and the keys are kept |
| Grouping.NormalizeGrid | src/ProgramView.tsx:52 | every broadcast day of the grid is normalised, and the keys are kept |
| Grouping.GridNormalizedShape | src/ProgramView.tsx:52 | a normalised grid has exactly the original buckets, none empty, each holding the normal form of its list |
| Grouping.GroupPrograms | src/ProgramView.tsx:14-85 | an absent list gives the empty grid; otherwise the buckets are exactly the non-empty `Select`s, none is empty, and each holds the normal form of its `Select` |
| ScheduleFacts.SelectMembers | src/ProgramView.tsx:25-46 | a bucket holds only kept records filed under its own day, network and service |
| ScheduleFacts.SelectCount | src/ProgramView.tsx:23-46 | a bucket holds a record as often as the input does when the record belongs there, and never otherwise |
| ScheduleFacts.KeptInExactlyOneBucket | src/ProgramView.tsx:29-46 | a kept record lies in the bucket of its own day key, network and service, and in no other |
| ScheduleFacts.BucketWindow | src/ProgramView.tsx:20-29 | every programme of bucket `d` starts in `[d + 5h, d + 29h)`, and `d` is not before the broadcast day of `now` |
| ScheduleFacts.InitialTabIsEarliest | src/ProgramView.tsx:90 | the tab selected on opening, the broadcast day of `now`, is not after any day present in the grid |
| ScheduleFacts.BucketIsChannelInput | src/ProgramView.tsx:29-46 | a non-empty bucket's key is a local midnight and all its records are named programmes of that day; non-negative durations carry over |
| ScheduleFacts.DroppedInNoBucket | src/ProgramView.tsx:24-27 | a dropped record lies in no bucket |
| ScheduleFacts.ShowsOnlyKept | src/ProgramView.tsx:24-27 | if every real programme of a list is kept, so is every real programme left after the fillers are removed |
| ScheduleFacts.EarliestOfDay | src/ProgramView.tsx:54-57 | the earliest programme of a bucket is a real one that starts no earlier than the day's 05:00 |
| ScheduleFacts.PreparedList | src/ProgramView.tsx:54-64 | the list before the walk is the sorted bucket, preceded by a filler covering exactly `[05:00, first start)` when the first programme starts later; it has the same real programmes and the same last slot |
| ScheduleFacts.PreparedListOrdered | src/ProgramView.tsx:54-64 | with non-negative durations, the list before the walk is sorted and has no negative duration |
| ScheduleFacts.ChannelStartsAtFive | src/ProgramView.tsx:55-64 | a channel list begins exactly at its day's 05:00, and its head is a filler up to the first start exactly when the first programme starts later |
| ScheduleFacts.ChannelKeepsPrograms | src/ProgramView.tsx:54-81 | with the fillers removed, a channel list is its bucket in start order, durations aside |
| ScheduleFacts.ChannelOnlyShortens | src/ProgramView.tsx:54-81 | the real programmes of a channel list are its bucket in start order, each the same record with a duration no longer than the reported one |
| ScheduleFacts.PreparedReal | src/ProgramView.tsx:54-64 | the 05:00 filler adds no real programme: the real programmes of the list before the walk are the sorted bucket |
| ScheduleFacts.KeptShownInGrid | src/ProgramView.tsx:25-81 | a kept record's own bucket exists, and the record is among the real programmes of that channel list, possibly with a cut duration |
| ScheduleFacts.ChannelEndsWithLastProgram | src/ProgramView.tsx:66-81 | a channel list ends with the latest programme of its bucket, unchanged |
| ScheduleFacts.ChannelContiguity | src/ProgramView.tsx:66-81 | every adjacent pair whose left index is below the list's length when the walk began abuts exactly |
| ScheduleFacts.ChannelOrdered | src/ProgramView.tsx:54-81 | with non-negative input durations, a channel list is sorted and has no negative duration |
| ScheduleFacts.DroppedNowhereInGrid | src/ProgramView.tsx:24-27 | a dropped record is not among the real programmes of any channel list, even with a cut duration |
| TunerStatus.StatusColor | src/TunerView.tsx:15-26 | the colour is one of five labels, and each label is returned exactly in its own case: faulted; free and not faulted; in use with first-user priority at most zero; in use otherwise, including with no users; neither free nor in use |
| TunerStatus.FirstPriority | src/TunerView.tsx:20 | `users?.at(0)?.priority`: absent when there are no users or the first has no priority; `OnlyFirstUserCounts` states that later users never matter |
| TunerStatus.OnlyFirstUserCounts | src/TunerView.tsx:20 | users after the first never change the colour |

## Left out

- Local time is a fixed UTC offset with no daylight-saving rules. `Date.setHours` under a real time zone database is not modelled.
- `Date.now()` becomes the parameter `now`.
- React state, the tab bar and its date labels, the table rendering, the programme dialog, network fetching and configuration are not part of this model. Only the initial tab value is stated, by `InitialTabIsEarliest`.
- JavaScript numbers are modelled as unbounded integers. Floating-point rounding and the safe-integer limit are not modelled.
- The descriptive payload of a programme record is not carried: extended text, video, audio and genre descriptors. The grouping never reads it.
- Aliasing is not modelled. Buckets hold the caller's own record objects, so trimming a duration in the source also changes the caller's list. Here records are values, and a trimmed record is a new value in the channel list.
- The in-place `sort`, `unshift` and `splice` are modelled as reassignments of a sequence variable. The result is the same; the identity of the array object is not tracked.
- The three `forEach` passes over the maps are modelled as loops over a set of pending keys. Each key is visited once. The order in which keys are visited is not modelled; the result does not depend on it.
- Programs.SortByStart: stability (equal start times keep their input order) holds for the insertion sort used here but is not proved. `Array.prototype.sort` is stable in current JavaScript engines.
- ScheduleFacts.ChannelOrdered, ScheduleFacts.PreparedListOrdered, GapFill.WalkSorted: these assume non-negative input durations. A negative duration is kept as it is, because a slot that ends before the next start is never trimmed. The filler spliced after such a slot starts before the slot itself does, so the list is no longer sorted by start.
- Idempotence of normalisation is not stated: re-grouping a normalised grid's programmes, fillers excluded, to get the same grid back.
- A normalised channel list is not promised to be contiguous throughout, because the code as written does not guarantee it (see Findings). `ChannelContiguity` states what the code does guarantee.
- The tuner record's fields other than the flags and `users` play no part in the colour. They are carried but not constrained.

## Findings

| source | as written | input that shows it | evidently intended | confidence | as-written member | corrected member |
|---|---|---|---|---|---|---|
| src/ProgramView.tsx:66-81 | `forEach` fixes its range to the list's length before the walk, but the callback `splice`s fillers into the same list. Each filler pushes the original pairs one index further, so after two fillers the walk ends before the last pair. | four 10-unit programmes starting at 0, 20, 40 and 60: the walk visits indices 0 to 3 of the growing list, and the gap between the programmes at 40 and 60 is left open | every adjacent pair is visited, so the whole channel list is contiguous | not executed | GapFill.WalkMissesLastGap | GapFill.FillAllGaps |

The grid model (`Grouping.NormalizeChannel`, `Grouping.GroupPrograms`) follows the code as written and uses `FillGaps`. `FillAllGaps` proves the intended behaviour for a walk whose bound is re-read after each callback, and `WalkSettles` proves that every pair then abuts.
