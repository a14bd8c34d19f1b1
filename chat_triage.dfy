/** The slot allocator of the triage view and the commit of its result to the
    shared store. A triage result leaves a pending severity; scheduling it
    computes a slot relative to "now", either bumping every existing appointment
    (Critical) or searching for the first free gap (every other level), and then
    replaces the store's list. */
module ChatTriage {
  import opened Timeline
  import opened StartOrder
  import opened Text
  import opened Store

  function Max(a: int, b: int): int
  {
    if a >= b then a else b
  }

  /** The earliest start the allocator may offer. */
  function BaseStart(now: int): int
  {
    now + LeadTimeMs
  }

  /** The appointment a Critical triage result books at `start`. */
  function CriticalVisit(start: int): Appointment
  {
    Appointment("Emergency visit (Critical)", "Auto-scheduled due to critical severity",
                start, start + SlotMs, Some(Critical), None, None)
  }

  /** The appointment any other triage result books at `start`. */
  function TriageVisit(severity: Severity, start: int): Appointment
  {
    Appointment("ER visit (" + SeverityName(severity) + ")", "Scheduled based on triage severity",
                start, start + SlotMs, Some(severity), None, None)
  }

  // ---------------------------------------------------------------------------
  // Critical: the bump

  /** `s` laid out back to back from `cursor`, each appointment moved but keeping
      its own `end - start`. */
  function Shift(s: seq<Appointment>, cursor: int): seq<Appointment>
  {
    if s == [] then []
    else
      var d := Duration(s[0]);
      [s[0].(start := cursor, end := cursor + d)] + Shift(s[1..], cursor + d)
  }

  /** The bump keeps the number of appointments and their order, changes nothing
      but `start` and `end`, keeps every duration, starts at `cursor` and leaves
      no gap between neighbours. */
  lemma {:induction false} ShiftLayout(s: seq<Appointment>, cursor: int)
    ensures var r := Shift(s, cursor);
      && |r| == |s|
      && (forall i | 0 <= i < |s| :: SameRecord(s[i], r[i]) && Duration(r[i]) == Duration(s[i]))
      && (|s| > 0 ==> r[0].start == cursor)
      && BackToBack(r)
  {
    if s != [] {
      var d := Duration(s[0]);
      var rest := Shift(s[1..], cursor + d);
      ShiftLayout(s[1..], cursor + d);
      var r := Shift(s, cursor);
      assert r == [s[0].(start := cursor, end := cursor + d)] + rest;
      forall i | 0 < i < |r| ensures Abuts(r, i) {
        if i > 1 {
          assert Abuts(rest, i - 1);
        }
      }
      forall i | 0 < i < |s| ensures SameRecord(s[i], r[i]) && Duration(r[i]) == Duration(s[i]) {
        assert s[i] == s[1..][i - 1] && r[i] == rest[i - 1];
      }
    }
  }

  // ---------------------------------------------------------------------------
  // Every other level: the gap search

  /** The value of the cursor `lastEnd` when the scan reaches position `i` of the
      start-ordered list `s`: the later of `base` and every end before `i`. */
  function Cursor(s: seq<Appointment>, base: int, i: int): int
    requires 0 <= i <= |s|
  {
    if i == 0 then base else Max(Cursor(s, base, i - 1), s[i - 1].end)
  }

  /** A whole slot fits between the cursor at `i` and the start of `s[i]`. */
  predicate FitsAt(s: seq<Appointment>, base: int, i: int)
    requires 0 <= i < |s|
  {
    s[i].start - Cursor(s, base, i) >= SlotMs
  }

  /** `k` is the first position where a slot fits, or `|s|` if there is none. */
  predicate FirstFit(s: seq<Appointment>, base: int, k: int)
    requires 0 <= k <= |s|
  {
    && (forall j | 0 <= j < k :: !FitsAt(s, base, j))
    && (k < |s| ==> FitsAt(s, base, k))
  }

  /** `start` is the cursor at the first position where a slot fits, or the
      final cursor when no slot fits anywhere. */
  ghost predicate PlacedAtFirstGap(s: seq<Appointment>, base: int, start: int)
  {
    exists k | 0 <= k <= |s| :: FirstFit(s, base, k) && start == Cursor(s, base, k)
  }

  /** The gap search as a recursion over the list: the start it returns for the
      scan that begins with cursor `lastEnd`. */
  function FirstGapStart(s: seq<Appointment>, lastEnd: int): int
  {
    if s == [] then lastEnd
    else if s[0].start - lastEnd >= SlotMs then lastEnd
    else FirstGapStart(s[1..], Max(lastEnd, s[0].end))
  }

  /** The cursor is the later of `base` and the latest end seen so far. */
  lemma {:induction false} CursorIsLatestEnd(s: seq<Appointment>, base: int, i: int)
    requires 0 <= i <= |s|
    ensures Cursor(s, base, i) >= base
    ensures forall j | 0 <= j < i :: Cursor(s, base, i) >= s[j].end
    ensures Cursor(s, base, i) == base || exists j | 0 <= j < i :: Cursor(s, base, i) == s[j].end
  {
    if i > 0 {
      CursorIsLatestEnd(s, base, i - 1);
    }
  }

  lemma {:induction false} FirstGapFrom(s: seq<Appointment>, base: int, k: int)
    requires 0 <= k <= |s|
    requires forall j | 0 <= j < k :: !FitsAt(s, base, j)
    ensures PlacedAtFirstGap(s, base, FirstGapStart(s[k..], Cursor(s, base, k)))
    decreases |s| - k
  {
    if k == |s| || FitsAt(s, base, k) {
      assert FirstFit(s, base, k);
    } else {
      assert s[k..][1..] == s[k + 1..];
      FirstGapFrom(s, base, k + 1);
    }
  }

  /** The recursive gap search returns the start described by the first-fit
      rule. */
  lemma FirstGapStartIsFirstFit(s: seq<Appointment>, base: int)
    ensures PlacedAtFirstGap(s, base, FirstGapStart(s, base))
  {
    FirstGapFrom(s, base, 0);
    assert s[0..] == s;
  }

  /** In a start-ordered list, the slot chosen by the first-fit rule starts no
      earlier than `base` and overlaps no appointment of the list. */
  lemma FirstGapIsFree(s: seq<Appointment>, base: int, start: int)
    requires SortedByStart(s)
    requires PlacedAtFirstGap(s, base, start)
    ensures start >= base
    ensures forall j | 0 <= j < |s| :: !Intersects(start, start + SlotMs, s[j].start, s[j].end)
  {
    var k :| 0 <= k <= |s| && FirstFit(s, base, k) && start == Cursor(s, base, k);
    CursorIsLatestEnd(s, base, k);
    forall j | 0 <= j < |s| ensures !Intersects(start, start + SlotMs, s[j].start, s[j].end) {
      if j >= k {
        assert FitsAt(s, base, k);
        assert s[k].start <= s[j].start;
      }
    }
  }

  /** When no slot fits before any appointment, the new one starts at the later
      of `base` and the latest end of all existing appointments. */
  lemma NoGapAppendsAfterLatestEnd(s: seq<Appointment>, base: int, start: int)
    requires PlacedAtFirstGap(s, base, start)
    requires forall j | 0 <= j < |s| :: !FitsAt(s, base, j)
    ensures start >= base
    ensures forall j | 0 <= j < |s| :: start >= s[j].end
    ensures start == base || exists j | 0 <= j < |s| :: start == s[j].end
  {
    var k :| 0 <= k <= |s| && FirstFit(s, base, k) && start == Cursor(s, base, k);
    assert k == |s|;
    CursorIsLatestEnd(s, base, k);
  }

  // ---------------------------------------------------------------------------
  // The allocator

  datatype Allocation = Allocation(updated: seq<Appointment>, inserted: Appointment)

  /** What the allocator returns for `severity` against the store's list
      `existing` when the clock reads `now`. */
  function Allocate(severity: Severity, existing: seq<Appointment>, now: int): Allocation
  {
    var sorted := SortByStart(existing);
    var base := BaseStart(now);
    if severity == Critical then
      Allocation(Shift(sorted, base + SlotMs), CriticalVisit(base))
    else
      Allocation(sorted, TriageVisit(severity, FirstGapStart(sorted, base)))
  }

  /** The allocator itself: sorts the existing appointments by start; for a
      Critical result books the first slot after the lead time and moves every
      existing appointment back to back behind it; otherwise scans with a cursor
      for the first gap of a whole slot. */
  method ComputeScheduledSlot(severity: Severity, appointments: seq<Appointment>, now: int)
    returns (updated: seq<Appointment>, inserted: Appointment)
    ensures Allocation(updated, inserted) == Allocate(severity, appointments, now)
  {
    var baseStart := now + 5 * 60 * 1000;
    var existing := SortByStart(appointments);
    var slotMs := 20 * 60 * 1000;
    if severity == Critical {
      var start := baseStart;
      var end := start + slotMs;
      var cursor := end;
      var shifted := [];
      var i := 0;
      while i < |existing|
        invariant 0 <= i <= |existing|
        invariant shifted + Shift(existing[i..], cursor) == Shift(existing, end)
      {
        var appt := existing[i];
        var s := cursor;
        var e := cursor + (appt.end - appt.start);
        assert existing[i..][1..] == existing[i + 1..];
        assert Shift(existing[i..], cursor) == [appt.(start := s, end := e)] + Shift(existing[i + 1..], e);
        shifted := shifted + [appt.(start := s, end := e)];
        cursor := e;
        i := i + 1;
      }
      assert existing[i..] == [];
      return shifted, CriticalVisit(start);
    }
    var lastEnd := baseStart;
    for i := 0 to |existing|
      invariant FirstGapStart(existing[i..], lastEnd) == FirstGapStart(existing, baseStart)
    {
      assert existing[i..][1..] == existing[i + 1..];
      var apptStart := existing[i].start;
      if apptStart - lastEnd >= slotMs {
        return existing, TriageVisit(severity, lastEnd);
      }
      lastEnd := Max(lastEnd, existing[i].end);
    }
    assert existing[|existing|..] == [];
    return existing, TriageVisit(severity, lastEnd);
  }

  // ---------------------------------------------------------------------------
  // Properties of the allocation

  /** Critical: the new appointment takes the first slot after the lead time, and
      every existing appointment, in start order, moves back to back behind it,
      unchanged except for its times and keeping its own duration. */
  lemma CriticalAllocation(existing: seq<Appointment>, now: int)
    ensures var a, sorted := Allocate(Critical, existing, now), SortByStart(existing);
      && SortedByStart(sorted) && multiset(sorted) == multiset(existing)
      && a.inserted.start == now + 5 * 60 * 1000
      && a.inserted.end == a.inserted.start + 20 * 60 * 1000
      && a.inserted.severity == Some(Critical)
      && |a.updated| == |existing|
      && (|existing| > 0 ==> a.updated[0].start == a.inserted.end)
      && BackToBack(a.updated)
      && |sorted| == |existing|
      && forall i | 0 <= i < |existing| ::
           SameRecord(sorted[i], a.updated[i]) && Duration(a.updated[i]) == Duration(sorted[i])
  {
    SortByStartSpec(existing);
    ShiftLayout(SortByStart(existing), BaseStart(now) + SlotMs);
  }

  /** Every other level: the existing appointments come back sorted and
      untouched, and the new slot lasts exactly one slot, starts no earlier than
      the lead time allows, is placed by the first-fit rule and overlaps none of
      them. */
  lemma NonCriticalAllocation(severity: Severity, existing: seq<Appointment>, now: int)
    requires severity != Critical
    ensures var a := Allocate(severity, existing, now);
      && a.updated == SortByStart(existing)
      && |a.updated| == |existing|
      && Duration(a.inserted) == SlotMs
      && a.inserted.severity == Some(severity)
      && a.inserted.start >= BaseStart(now)
      && PlacedAtFirstGap(a.updated, BaseStart(now), a.inserted.start)
      && forall j | 0 <= j < |existing| :: !Overlap(a.inserted, a.updated[j])
  {
    var sorted := SortByStart(existing);
    var start := FirstGapStart(sorted, BaseStart(now));
    SortByStartSpec(existing);
    FirstGapStartIsFirstFit(sorted, BaseStart(now));
    FirstGapIsFree(sorted, BaseStart(now), start);
    assert Allocate(severity, existing, now) == Allocation(sorted, TriageVisit(severity, start));
  }

  /** With no existing appointments the new one starts at the earliest allowed
      start, whatever the severity. */
  lemma EmptyTimelineStartsAtBase(severity: Severity, now: int)
    ensures Allocate(severity, [], now).inserted.start == BaseStart(now)
    ensures Allocate(severity, [], now).updated == []
  {
  }

  // ---------------------------------------------------------------------------
  // Committing the result

  /** The inserted appointment enriched with the selected hospital, when one is
      stored, and with the trimmed topic, when it is not blank. */
  function Enrich(inserted: Appointment, hospital: Option<Hospital>, topic: string): (r: Appointment)
    ensures r.summary == inserted.summary && r.description == inserted.description
    ensures r.start == inserted.start && r.end == inserted.end && r.severity == inserted.severity
  {
    var withHospital := if hospital.Some? then inserted.(hospital := hospital) else inserted;
    var trimmed := Trim(topic);
    if trimmed != [] then withHospital.(topic := Some(trimmed)) else withHospital
  }

  /** The list the scheduler commits: for Critical the new appointment first and
      the moved ones after it; otherwise the existing ones followed by the new. */
  function CommittedList(severity: Severity, a: Allocation, hospital: Option<Hospital>, topic: string)
    : seq<Appointment>
  {
    var enriched := Enrich(a.inserted, hospital, topic);
    if severity == Critical then [enriched] + a.updated else a.updated + [enriched]
  }

  /** Enrichment leaves the allocated record as it is apart from `hospital` and
      `topic`; a topic is attached exactly when it is not blank, and then without
      surrounding white space. */
  lemma EnrichAttachesTrimmedTopic(inserted: Appointment, hospital: Option<Hospital>, topic: string)
    requires inserted.hospital == None && inserted.topic == None
    ensures var r := Enrich(inserted, hospital, topic);
      && r.(hospital := None, topic := None) == inserted
      && r.hospital == hospital
      && (r.topic.Some? <==> !AllWhitespace(topic))
      && (r.topic.Some? ==> r.topic.value == Trim(topic) && !IsJsWhitespace(r.topic.value[0])
                            && !IsJsWhitespace(r.topic.value[|r.topic.value| - 1]))
  {
    TrimEmptyIffBlank(topic);
    TrimIsInfix(topic);
  }

  /** After a Critical commit the new appointment leads the timeline and the
      whole list is back to back. */
  lemma CriticalCommitLeadsTimeline(existing: seq<Appointment>, now: int, hospital: Option<Hospital>, topic: string)
    ensures var c := CommittedList(Critical, Allocate(Critical, existing, now), hospital, topic);
      && |c| == |existing| + 1
      && c[0].start == BaseStart(now) && Duration(c[0]) == SlotMs && c[0].severity == Some(Critical)
      && BackToBack(c)
  {
    var sorted := SortByStart(existing);
    var updated := Shift(sorted, BaseStart(now) + SlotMs);
    var e := Enrich(CriticalVisit(BaseStart(now)), hospital, topic);
    CriticalCommitShape(existing, now, hospital, topic);
    ShiftLayout(sorted, BaseStart(now) + SlotMs);
    SortByStartSpec(existing);
    PrependAbutting(e, updated);
  }

  /** A Critical commit writes the enriched new slot followed by the sorted
      existing appointments laid out back to back from the slot's end. */
  lemma CriticalCommitShape(existing: seq<Appointment>, now: int, hospital: Option<Hospital>, topic: string)
    ensures CommittedList(Critical, Allocate(Critical, existing, now), hospital, topic)
         == [Enrich(CriticalVisit(BaseStart(now)), hospital, topic)] + Shift(SortByStart(existing), BaseStart(now) + SlotMs)
    ensures Enrich(CriticalVisit(BaseStart(now)), hospital, topic).start == BaseStart(now)
    ensures Enrich(CriticalVisit(BaseStart(now)), hospital, topic).end == BaseStart(now) + SlotMs
  {
  }

  lemma PrependAbutting(e: Appointment, r: seq<Appointment>)
    requires BackToBack(r)
    requires |r| > 0 ==> r[0].start == e.end
    ensures BackToBack([e] + r)
  {
    var c := [e] + r;
    forall i | 0 < i < |c| ensures Abuts(c, i) {
      if i > 1 {
        assert Abuts(r, i - 1);
      }
    }
  }

  /** When no existing record has a negative duration, the list a Critical
      commit writes is in start order, no two of its appointments overlap and
      none starts before the earliest allowed start. */
  lemma CriticalCommitIsDisjoint(existing: seq<Appointment>, now: int, hospital: Option<Hospital>, topic: string)
    requires NonNegativeDurations(existing)
    ensures var c := CommittedList(Critical, Allocate(Critical, existing, now), hospital, topic);
      && SortedByStart(c) && PairwiseDisjoint(c)
      && forall i | 0 <= i < |c| :: c[i].start >= BaseStart(now)
  {
    CriticalCommitNonNegative(existing, now, hospital, topic);
    CriticalCommitLeadsTimeline(existing, now, hospital, topic);
    LaidOutFromFloor(CommittedList(Critical, Allocate(Critical, existing, now), hospital, topic), BaseStart(now));
  }

  /** A Critical commit introduces no negative duration. */
  lemma CriticalCommitNonNegative(existing: seq<Appointment>, now: int, hospital: Option<Hospital>, topic: string)
    requires NonNegativeDurations(existing)
    ensures NonNegativeDurations(CommittedList(Critical, Allocate(Critical, existing, now), hospital, topic))
  {
    var sorted := SortByStart(existing);
    var updated := Shift(sorted, BaseStart(now) + SlotMs);
    var e := Enrich(CriticalVisit(BaseStart(now)), hospital, topic);
    CriticalCommitShape(existing, now, hospital, topic);
    SortKeepsNonNegative(existing);
    ShiftKeepsNonNegative(sorted, BaseStart(now) + SlotMs);
    PrependNonNegative(e, updated);
  }

  /** A back-to-back list without negative durations that starts at `floor` is
      ordered, disjoint and starts nowhere before `floor`. */
  lemma LaidOutFromFloor(c: seq<Appointment>, floor: int)
    requires BackToBack(c) && NonNegativeDurations(c)
    requires |c| > 0 && c[0].start == floor
    ensures SortedByStart(c) && PairwiseDisjoint(c)
    ensures forall i | 0 <= i < |c| :: c[i].start >= floor
  {
    BackToBackIsSortedAndDisjoint(c);
  }

  /** Sorting moves records but keeps each one, so no negative duration appears. */
  lemma SortKeepsNonNegative(s: seq<Appointment>)
    requires NonNegativeDurations(s)
    ensures NonNegativeDurations(SortByStart(s))
  {
    SortByStartSpec(s);
    var t := SortByStart(s);
    forall i | 0 <= i < |t| ensures Duration(t[i]) >= 0 {
      assert t[i] in multiset(s);
    }
  }

  lemma ShiftKeepsNonNegative(s: seq<Appointment>, cursor: int)
    requires NonNegativeDurations(s)
    ensures NonNegativeDurations(Shift(s, cursor))
  {
    ShiftLayout(s, cursor);
  }

  lemma PrependNonNegative(e: Appointment, r: seq<Appointment>)
    requires Duration(e) >= 0 && NonNegativeDurations(r)
    ensures NonNegativeDurations([e] + r)
  {
    var c := [e] + r;
    forall i | 0 <= i < |c| ensures Duration(c[i]) >= 0 {
      if i > 0 {
        assert c[i] == r[i - 1];
      }
    }
  }

  /** After any other commit the existing appointments stay, in start order and
      unchanged, in front of the new one, which overlaps none of them. */
  lemma NonCriticalCommitAppends(severity: Severity, existing: seq<Appointment>, now: int,
                                 hospital: Option<Hospital>, topic: string)
    requires severity != Critical
    ensures var c := CommittedList(severity, Allocate(severity, existing, now), hospital, topic);
      && |c| == |existing| + 1
      && c[..|existing|] == SortByStart(existing)
      && multiset(c[..|existing|]) == multiset(existing)
      && Duration(c[|existing|]) == SlotMs
      && c[|existing|].start >= BaseStart(now)
      && forall j | 0 <= j < |existing| :: !Overlap(c[|existing|], c[j])
  {
    var a := Allocate(severity, existing, now);
    var e := Enrich(a.inserted, hospital, topic);
    EnrichedSlotIsFree(severity, existing, now, hospital, topic);
    SortByStartSpec(existing);
    AppendedLast(a.updated, e);
    assert CommittedList(severity, a, hospital, topic) == a.updated + [e];
  }

  /** Outside the Critical path the enriched new slot lies at or after the
      earliest allowed start, lasts one slot and overlaps none of the sorted
      existing appointments. */
  lemma EnrichedSlotIsFree(severity: Severity, existing: seq<Appointment>, now: int,
                           hospital: Option<Hospital>, topic: string)
    requires severity != Critical
    ensures var a := Allocate(severity, existing, now);
      var e := Enrich(a.inserted, hospital, topic);
      && a.updated == SortByStart(existing)
      && Duration(e) == SlotMs && e.start >= BaseStart(now)
      && forall j | 0 <= j < |a.updated| :: !Overlap(e, a.updated[j])
  {
    var a := Allocate(severity, existing, now);
    var e := Enrich(a.inserted, hospital, topic);
    assert && a.updated == SortByStart(existing) && |a.updated| == |existing|
           && Duration(a.inserted) == SlotMs && a.inserted.start >= BaseStart(now)
           && forall j | 0 <= j < |existing| :: !Overlap(a.inserted, a.updated[j]) by {
      NonCriticalAllocation(severity, existing, now);
    }
    EnrichKeepsSlotFree(a.inserted, a.updated, hospital, topic, BaseStart(now));
  }

  /** Enrichment keeps the times, so a free slot stays free, as long and as late. */
  lemma EnrichKeepsSlotFree(x: Appointment, u: seq<Appointment>, hospital: Option<Hospital>, topic: string,
                            floor: int)
    requires Duration(x) == SlotMs && x.start >= floor
    requires forall j | 0 <= j < |u| :: !Overlap(x, u[j])
    ensures var e := Enrich(x, hospital, topic);
      && Duration(e) == SlotMs && e.start >= floor
      && forall j | 0 <= j < |u| :: !Overlap(e, u[j])
  {
    var e := Enrich(x, hospital, topic);
    assert e.start == x.start && e.end == x.end;
  }

  /** When nothing stored overlaps, no two appointments of a non-Critical
      commit overlap either. */
  lemma NonCriticalCommitKeepsDisjoint(severity: Severity, existing: seq<Appointment>, now: int,
                                       hospital: Option<Hospital>, topic: string)
    requires severity != Critical && PairwiseDisjoint(existing)
    ensures PairwiseDisjoint(CommittedList(severity, Allocate(severity, existing, now), hospital, topic))
  {
    var a := Allocate(severity, existing, now);
    var e := Enrich(a.inserted, hospital, topic);
    EnrichedSlotIsFree(severity, existing, now, hospital, topic);
    SortKeepsDisjoint(existing);
    AppendFree(a.updated, e);
    assert CommittedList(severity, a, hospital, topic) == a.updated + [e];
  }

  /** Appending an appointment that overlaps none of a disjoint list keeps it
      disjoint. */
  lemma AppendFree(u: seq<Appointment>, x: Appointment)
    requires PairwiseDisjoint(u)
    requires forall j | 0 <= j < |u| :: !Overlap(x, u[j])
    ensures PairwiseDisjoint(u + [x])
  {
    var c := u + [x];
    forall i, j | 0 <= i < j < |c| ensures !Overlap(c[i], c[j]) {
      assert c[i] == u[i];
      if j < |u| {
        assert c[j] == u[j];
      }
    }
  }

  /** `x` appended to `u` sits after all of `u`, which is kept as it was. */
  lemma AppendedLast(u: seq<Appointment>, x: Appointment)
    requires forall j | 0 <= j < |u| :: !Overlap(x, u[j])
    ensures var c := u + [x];
      && |c| == |u| + 1 && c[..|u|] == u && c[|u|] == x
      && forall j | 0 <= j < |u| :: !Overlap(c[|u|], c[j])
  {
    var c := u + [x];
    assert c[..|u|] == u;
    forall j | 0 <= j < |u| ensures !Overlap(c[|u|], c[j]) {
      assert c[j] == u[j];
    }
  }

  /** The triage view's scheduling state: the severity waiting to be booked (if
      any) and the topic typed next to it. */
  class TriageSession {
    var pending: Option<Severity>
    var pendingTopic: string
    const store: AppointmentStore

    constructor (store: AppointmentStore)
      ensures this.store == store && pending == None && pendingTopic == ""
    {
      this.store := store;
      pending := None;
      pendingTopic := "";
    }

    /** Books the pending severity: allocates against the store's current list,
        commits the whole new list and clears the pending state. Does nothing
        when no severity is pending. `storedHospital` is the facility selection
        read from local storage. */
    method SchedulePending(now: int, storedHospital: Option<Hospital>)
      modifies this, store
      ensures old(pending).None? ==>
        pending == old(pending) && pendingTopic == old(pendingTopic)
        && store.appointments == old(store.appointments)
      ensures old(pending).Some? ==>
        var severity := old(pending).value;
        && pending == None && pendingTopic == ""
        && store.appointments == CommittedList(severity, Allocate(severity, old(store.appointments), now),
                                               storedHospital, old(pendingTopic))
    {
      if pending.None? {
        return;
      }
      var severity := pending.value;
      var updated, inserted := ComputeScheduledSlot(severity, store.appointments, now);
      var enriched := inserted;
      if storedHospital.Some? {
        enriched := enriched.(hospital := storedHospital);
      }
      if Trim(pendingTopic) != [] {
        enriched := enriched.(topic := Some(Trim(pendingTopic)));
      }
      var newList;
      if severity == Critical {
        newList := [enriched] + updated;
      } else {
        newList := updated + [enriched];
      }
      store.Commit(newList);
      pending := None;
      pendingTopic := "";
    }
  }
}
