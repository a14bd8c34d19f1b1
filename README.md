# MedLink appointment timeline in Dafny

MedLink is a patient-triage web application. A chat produces a severity
(Minimal, Mild, Moderate, Concerning or Critical), and the application books a
slot in one shared appointment timeline. This project models the timeline's
core and proves properties of it:

- **the slot allocator** of the triage chat. A Critical result takes the first
  slot after a five-minute lead time and pushes every existing appointment back
  to back behind it. Any other level scans the start-ordered list for the first
  gap of a twenty-minute slot, or appends after the latest end. Committing the
  result attaches the stored hospital and the trimmed topic, writes the whole
  list to the store and clears the pending state;
- **the calendar view**:
  - grouping the stored list by day;
  - the synchronisation between the view's grouping and the store;
  - cancelling an appointment, which re-lays the rest of its day back to back
    from the day's earliest start. A record with a non-positive duration gets
    one slot length;
- **the demo-day generator**. It makes back-to-back intake appointments of one
  length from a start hour to an end hour. Severities are drawn by weight and
  injuries uniformly, with a hard cap of 501 records;
- **the appointment store**. It loads a stored list or a one-hour demo
  appointment, and every commit replaces the whole list.

Modules:

| module | file | models |
|---|---|---|
| `Timeline` | `timeline.dfy` | the appointment record and severity levels, plus the shared notions of a schedule: back to back, start-ordered, disjoint |
| `StartOrder` | `start_order.dfy` | the stable sort by start time |
| `Text` | `text.dfy` | the JavaScript `trim` with its white-space set |
| `Store` | `store.dfy` | the appointment store |
| `ChatTriage` | `chat_triage.dfy` | the allocator and the scheduling step |
| `ExternalApi` | `external_api.dfy` | day grouping, reflow, cancellation and the calendar view |
| `FakeAppointments` | `fake_appointments.dfy` | weighted choice and the demo-day generator |
| `Scenarios` | `scenarios.dfy` | worked examples on concrete clocks |

Timestamps are integer milliseconds. Inside the range of the JavaScript `Date`
(at most 8.64e15 ms either side of the epoch) the code's ISO strings round-trip
them exactly.

The source loops become `method`s with loop invariants. Three of them are proved
equal to a recursive specification function:
- `ComputeScheduledSlot` against `Allocate`;
- `GroupByDate` against `GroupByDay`;
- `RecomputeAppointmentsForDate` against `Reflow`.

The lemmas are stated about those functions. The other loops are proved against
their own postconditions. The two loops of `WeightedChoice` are proved against
the running totals `Prefix` and the first-above rule `FirstAbove`. The
generator's loop is proved against the layout predicates `SlotsFrom` and
`StartedBeforeEnd`, the cap, and `AllDrawn`, which ties each record to its own
pair of draws.

The React state is modelled as classes whose methods replace their fields:
- the triage session's pending schedule;
- the calendar view's grouping;
- the store's list.

These are inputs passed as parameters:
- the clock (`now`);
- the selected hospital read from local storage;
- the user's confirmation;
- the day key of a timestamp (`dayOf`, for `Date.prototype.toDateString`);
- the random draws.

Some of the code's behaviour is easy to misread. The model follows the code in
each case:
- The gap scan starts at the floor (now plus five minutes) and takes the first
  gap of a whole slot that it meets. A Moderate visit at 09:00 against
  `[10:00–10:20]` and `[10:40–11:00]` is booked at `[09:05–09:25]`, not in the
  10:20 gap (`Scenarios.GapBeforeFirstAppointment`).
- The Critical bump lays every existing appointment back to back behind the new
  slot, whatever its time. It can therefore move an appointment earlier: a lone
  `[12:00–12:20]` moves to `[09:25–09:45]` (`Scenarios.CriticalBumpPullsEarlier`).
- The Critical slot comes first in the committed list. The list is ordered and
  disjoint whenever no stored record ends before it starts
  (`ChatTriage.CriticalCommitIsDisjoint`). A corrupt record that is not last
  can pull its successor in front of the Critical slot
  (`Scenarios.NegativeDurationEscapesFloor`).
- A non-Critical commit keeps a disjoint store disjoint
  (`ChatTriage.NonCriticalCommitKeepsDisjoint`). Its slot goes at the end of the
  list even when it starts before records already stored.
- The reflow lays a day out in list order, by index, and not by start time.
  After a non-Critical commit appends an earlier slot at the end, a
  cancellation on that day moves the later records in front of it
  (`Scenarios.ReflowFollowsListOrder`).
- The calendar view keeps its old grouping when the store's set of days is
  unchanged (`ExternalApi.CalendarView.SyncWithStore`). A later cancellation
  writes that stale grouping back to the store
  (`ExternalApi.CalendarView.CancelAppointment`). Any record committed in the
  meantime on a day the view already had is then dropped.
- With nothing stored, the store starts with one demo appointment running from
  now for an hour (`Store.SeedAppointment`).

## Model

| member | source | states |
|---|---|---|
| Timeline.BackToBackIsSortedAndDisjoint | src/components/ChatTriage.js:45-51 | a back-to-back list with no negative duration is in start order and no two of its appointments overlap |
| StartOrder.InsertByStartSpec | src/components/ChatTriage.js:38 | inserting into a start-ordered list gives one more element, the same multiset plus the new one, still start-ordered |
| StartOrder.SortByStartSpec | src/components/ChatTriage.js:38 | the sort returns a start-ordered permutation of its input, of the same length |
| StartOrder.SortKeepsDisjoint | src/components/ChatTriage.js:38 | sorting a list in which no two records overlap leaves no two records overlapping |
| StartOrder.SortKeepsSorted | src/components/ChatTriage.js:38 | a list already in start order comes back unchanged |
| StartOrder.InsertByStartStable | src/components/ChatTriage.js:38 | inserting into a start-ordered list puts the new record behind every record with the same start |
| StartOrder.EqualStartsKeepOrder | src/components/ChatTriage.js:38 | the sort is stable: for every start time, the records that start then come out in their input order |
| Text.TrimStart | src/components/ChatTriage.js:81 | the result is a suffix, what was removed is all white space, and it does not begin with white space |
| Text.TrimEnd | src/components/ChatTriage.js:81 | the result is a prefix, what was removed is all white space, and it does not end with white space |
| Text.TrimIsInfix | src/components/ChatTriage.js:81 | the trimmed topic is an infix of the input, with only white space around it and none at its edges |
| Text.TrimEmptyIffBlank | src/components/ChatTriage.js:81 | the trimmed topic is empty exactly when the topic is all white space |
| Text.TrimIdempotent | src/components/ChatTriage.js:81 | trimming twice is trimming once |
| Store.SeedAppointment | src/utils/AppointmentsContext.js:7-14 | the demo appointment starts now, lasts one hour and has no severity, hospital or topic |
| Store.AppointmentStore.Load | src/utils/AppointmentsContext.js:17-27 | the store holds the stored list when there is one, otherwise the single demo appointment |
| Store.AppointmentStore.Commit | src/utils/AppointmentsContext.js:30-35 | a commit replaces the whole list with the new one |
| ChatTriage.ShiftLayout | src/components/ChatTriage.js:41-51 | the bump keeps the count and order, changes only the times of each record, keeps every raw duration, starts at the cursor and leaves no gap |
| ChatTriage.CursorIsLatestEnd | src/components/ChatTriage.js:56-66 | the scan cursor is the floor or the latest end seen so far, and is at least both |
| ChatTriage.FirstGapStartIsFirstFit | src/components/ChatTriage.js:56-69 | the recursive gap search returns the cursor at the first position with a whole free slot before it, or the final cursor when there is none |
| ChatTriage.FirstGapIsFree | src/components/ChatTriage.js:56-64 | on a start-ordered list, the slot placed by the first-fit rule starts at or after the floor and overlaps no existing appointment |
| ChatTriage.NoGapAppendsAfterLatestEnd | src/components/ChatTriage.js:67-69 | when no position fits, the slot starts at the floor or the latest end, and after every existing end |
| ChatTriage.ComputeScheduledSlot | src/components/ChatTriage.js:33-70 | the allocator's loops return exactly the allocation `Allocate` specifies |
| ChatTriage.CriticalAllocation | src/components/ChatTriage.js:36-52 | for Critical, the new slot is `[now+5min, now+25min)`; the existing list is sorted (a permutation) and then laid back to back from the slot's end, record by record, keeping fields and durations |
| ChatTriage.NonCriticalAllocation | src/components/ChatTriage.js:54-69 | otherwise the existing list comes back sorted and untouched; the new slot lasts twenty minutes, has the requested severity, starts at or after the floor, follows the first-fit rule and overlaps none of them |
| ChatTriage.EmptyTimelineStartsAtBase | src/components/ChatTriage.js:34-36 | with no appointments the new one starts at now plus the lead time, whatever the severity |
| ChatTriage.Enrich | src/components/ChatTriage.js:79-81 | enrichment leaves summary, description, times and severity as allocated |
| ChatTriage.EnrichAttachesTrimmedTopic | src/components/ChatTriage.js:79-81 | only hospital and topic change; the hospital is the stored one; a topic is attached exactly when it is not blank, and then trimmed |
| ChatTriage.CriticalCommitLeadsTimeline | src/components/ChatTriage.js:83-84 | a Critical commit puts the new slot first at the floor and leaves the whole list back to back, one longer than before |
| ChatTriage.CriticalCommitIsDisjoint | src/components/ChatTriage.js:83-84 | with no negative durations stored, a Critical commit is start-ordered, has no overlap and nothing before the floor |
| ChatTriage.EnrichedSlotIsFree | src/components/ChatTriage.js:79-86 | outside the Critical path the enriched slot starts at or after the floor, lasts twenty minutes and overlaps none of the sorted existing appointments |
| ChatTriage.NonCriticalCommitKeepsDisjoint | src/components/ChatTriage.js:54-86 | when no two stored records overlap, no two records of a non-Critical commit overlap either |
| ChatTriage.NonCriticalCommitAppends | src/components/ChatTriage.js:85-86 | any other commit is the sorted existing list (a permutation of the store) followed by the new slot, which overlaps none of them |
| ChatTriage.TriageSession.constructor | src/components/ChatTriage.js:28-29 | nothing is pending and the topic is empty |
| ChatTriage.TriageSession.SchedulePending | src/components/ChatTriage.js:72-93 | without a pending severity nothing changes; otherwise the store gets the committed list for the current store and clock, and the pending state is cleared |
| ExternalApi.OnDayBelongs | src/views/ExternalApi.js:106-111 | every appointment in a day's list is from the input and falls on that day |
| ExternalApi.DayKeysSpec | src/views/ExternalApi.js:106-111 | the day keys are distinct, and a key is present exactly when some appointment falls on it |
| ExternalApi.AbsentDayIsEmpty | src/views/ExternalApi.js:109 | a day with no key has no appointments |
| ExternalApi.GroupByDayWellFormed | src/views/ExternalApi.js:106-111 | the grouping's key order and its map agree and keys are distinct |
| ExternalApi.GroupingIsPermutation | src/views/ExternalApi.js:100-111 | flattening the grouping by key order gives back exactly the input appointments, as a multiset |
| ExternalApi.GroupByDate | src/views/ExternalApi.js:106-111 | the grouping loop builds exactly `GroupByDay`: keys in first-seen order, each day's list in input order |
| ExternalApi.EarliestStart | src/views/ExternalApi.js:134-137 | the fold returns one of the starts and none is earlier |
| ExternalApi.RebuildLayout | src/views/ExternalApi.js:140-150 | re-laying keeps count, order and every field but the times, uses the positive duration or one slot, starts at the cursor and leaves no gap |
| ExternalApi.ReflowSpec | src/views/ExternalApi.js:130-152 | an empty day stays empty; otherwise the day keeps its length and records, positive durations are kept, non-positive ones become one slot, it starts at the earliest original start and is back to back |
| ExternalApi.RebuildKeepsLaidOut | src/views/ExternalApi.js:140-150 | re-laying a back-to-back list with positive durations from its own first start changes nothing |
| ExternalApi.ReflowIdempotent | src/views/ExternalApi.js:130-152 | reflowing a reflowed day changes nothing |
| ExternalApi.RecomputeAppointmentsForDate | src/views/ExternalApi.js:130-152 | the rebuild loop returns exactly `Reflow` of the day |
| ExternalApi.CancelledSpec | src/views/ExternalApi.js:163-173 | cancelling keeps the grouping well formed and its keys; other days are unchanged; the day loses one record; records before and after the index keep their fields; the flattened timeline is one shorter |
| ExternalApi.CalendarView.constructor | src/views/ExternalApi.js:95 | the view starts with an empty grouping |
| ExternalApi.CalendarView.SyncWithStore | src/views/ExternalApi.js:99-120 | an empty store receives the view's flattened appointments; otherwise the view adopts the store's grouping exactly when its set of days differs |
| ExternalApi.CalendarView.CancelAppointment | src/views/ExternalApi.js:154-174 | an index out of range or a declined prompt changes nothing; otherwise the view holds the cancelled grouping and the store its flattened timeline |
| FakeAppointments.WeightedChoice | src/utils/fakeAppointments.js:12-20 | the index is in range for any non-empty list, -1 for an empty one, the first whose running total exceeds the scaled draw, or the last when none does |
| FakeAppointments.ChoiceLandsInShare | src/utils/fakeAppointments.js:12-20 | for non-negative weights with a positive total and a draw in [0, 1), some running total exceeds the scaled draw; the chosen index has positive weight and its share of the total holds the draw |
| FakeAppointments.Injuries | src/utils/fakeAppointments.js:4-10 | every severity has three injuries |
| FakeAppointments.IntakeRecord | src/utils/fakeAppointments.js:49-55 | the record is an intake for its severity over the given times |
| FakeAppointments.SeverityWeightsTotal | src/utils/fakeAppointments.js:38 | the severity weights are non-negative and total 100 |
| FakeAppointments.SeverityBandIsFirstAbove | src/utils/fakeAppointments.js:12-20 | for the severity weights and a draw in [0, 1), the first-above rule picks position k exactly when k is the draw's band: below 30 Minimal, then Mild to 55, Moderate to 75, Concerning to 90, Critical above |
| FakeAppointments.UniformPick | src/utils/fakeAppointments.js:44 | a draw in [0, 1) scaled by n and floored is a valid index among n |
| FakeAppointments.DrawIntake | src/utils/fakeAppointments.js:41-47 | the record is exactly the intake record for the severity that the weighted choice picks from the first draw and the injury that the second draw picks uniformly, over the given times |
| FakeAppointments.DrawnIsIntake | src/utils/fakeAppointments.js:41-55 | a record drawn this way is an intake: its severity is the band's, and summary and description name one of that severity's injuries and the severity |
| FakeAppointments.GenerateDailyAppointments | src/utils/fakeAppointments.js:27-63 | at most 501 records; the first starts at `startHour:00`; each lasts `slotMinutes` and starts where the previous ended; each started while the hour condition held; the i-th is the intake drawn from draws 2i (severity) and 2i+1 (injury); below the cap the next cursor fails the condition |
| FakeAppointments.SlotStart | src/utils/fakeAppointments.js:46-57 | the i-th generated slot starts i slot lengths after the first |
| FakeAppointments.SlotsAreOrderedAndDisjoint | src/utils/fakeAppointments.js:46-57 | generated slots of non-negative length are start-ordered and disjoint |
| FakeAppointments.DefaultSlotClock | src/utils/fakeAppointments.js:28-40 | with the default options the k-th slot reads `((8 + k/3) mod 24):(20·(k mod 3))` on the local clock |
| FakeAppointments.DefaultDayHasThirtyOneIntakes | src/utils/fakeAppointments.js:28-63 | with the default options a generated day has exactly 31 intakes, the last starting at 18:00 |
| Scenarios.GapBeforeFirstAppointment | src/components/ChatTriage.js:56-64 | a Moderate visit at 09:00 against `[10:00–10:20]`, `[10:40–11:00]` is booked `[09:05–09:25]` |
| Scenarios.AppendAfterLastEnd | src/components/ChatTriage.js:65-69 | a Mild visit at 09:00 against `[09:05–09:40]`, `[09:50–10:10]` is appended at `[10:10–10:30]` |
| Scenarios.CriticalBump | src/components/ChatTriage.js:41-52 | a Critical visit at 09:00 against `[09:10–09:30]`, `[09:30–09:50]` takes `[09:05–09:25]` and moves them to `[09:25–09:45]`, `[09:45–10:05]` |
| Scenarios.CriticalBumpPullsEarlier | src/components/ChatTriage.js:41-52 | a Critical visit at 09:00 against a lone `[12:00–12:20]` takes `[09:05–09:25]` and pulls the existing one forward to `[09:25–09:45]` |
| Scenarios.ReflowFollowsListOrder | src/views/ExternalApi.js:130-152 | with `[A 10:00–10:20]`, `[B 10:20–10:40]`, `[Y 09:05–09:25]` in list order, cancelling B gives `[A 09:05–09:25]`, `[Y 09:25–09:45]` |
| Scenarios.CancelClosesGap | src/views/ExternalApi.js:130-152 | cancelling B from `[A 09:00–09:20]`, `[B 09:20–09:45]`, `[C 09:45–10:05]` leaves `[A 09:00–09:20]`, `[C 09:20–09:40]` |
| Scenarios.NegativeDurationEscapesFloor | src/components/ChatTriage.js:46-51 | with a stored record ending before it starts, the Critical bump moves its successor to 08:25, before the 09:05 floor and before the new slot that the commit puts first |

## Left out

- Persistence is left out. Reading and writing `localStorage`, the JSON parse itself and the `selected_hospital` lookup are not modelled. A failed parse is the `None` case of `Store.AppointmentStore.Load`, which gives the demo appointment as the `catch` does (src/utils/AppointmentsContext.js:24-25). The store is a field, and the stored hospital is an `Option` parameter whose `Some` stands for a truthy parsed value.
- The chat itself is left out: the language-model request that yields the severity, the message list, loading state and the `history.push` navigation. They are I/O.
- Severity strings are restricted to the five levels. A response outside them is a chat concern and is not modelled.
- Time values: `new Date()`, `Date.now()` and `toDateString` become parameters (`now`, `dayOf`). ISO-string formatting is left out because millisecond integers inside the `Date` range round-trip through it.
- The `Date` range is not modelled. Outside 8.64e15 ms from the epoch, `toISOString` throws a `RangeError` (src/components/ChatTriage.js:50, 52, 63, 69; src/views/ExternalApi.js:148; src/utils/fakeAppointments.js:52-53), and so nothing is committed or generated. The model's integers are unbounded, so it always commits.
- `FakeAppointments.GenerateDailyAppointments` takes `startHour`, `endHour` and `slotMinutes` as integers. In JavaScript they are numbers: `setHours` truncates a fractional `startHour`, a fractional `endHour` is compared with whole hours, and a fractional `slotMinutes` gives slots that are not whole minutes. Those inputs are not modelled.
- `Store.SeedAppointment` reads the clock once. The source reads it twice (src/utils/AppointmentsContext.js:11-12), so the demo appointment can last an hour plus the milliseconds between the two reads.
- The `earliest === null` fallback in the reflow is left out: that branch cannot run once the list is known to be non-empty.
- The reflow's `dateKey` argument is left out because it is unused.
- The generator's clock is a fixed offset from the local midnight `dayStart`; daylight-saving transitions are not modelled. Turning the `date` argument into that midnight is left out.
- `generateAppointmentsByDate` wraps the generator with a UTC date key, and `sampleAppointmentsToday` is one day generated when the module loads. Neither is modelled.
- `FakeAppointments.WeightedChoice` uses exact real arithmetic for the JavaScript floating-point weights and draw.
- `FakeAppointments.GenerateDailyAppointments` states which record each pair of draws selects, but not the probability distribution of the result. `Math.random` is the draw sequence `draws`.
- The `|| ['Injury']` fallback for an unknown severity cannot happen, because every level has a list.
- The synchronisation effect's test, comparing the sorted key arrays as JSON strings, is modelled as comparing the key sets. The keys are distinct strings, so the two agree. Day keys are not integer-like, so JavaScript enumerates them in insertion order. No store (`null`) is treated as an empty one.
- React scheduling is not modelled: batched state updates, effect re-runs and rendering. Each method runs to completion.
- The hospitals map, drug search, health tips, account form, profile store and the API server are not part of this model. They are UI or pass-throughs to external services.
