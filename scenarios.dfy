/** Worked examples on one day's clock: the allocator's gap search, its append
    fallback, the Critical bump (which can move an appointment earlier), the
    cancellation reflow, and what the bump does with a corrupt record whose end
    precedes its start. */
module Scenarios {
  import opened Timeline
  import opened StartOrder
  import opened ChatTriage
  import opened ExternalApi

  /** `h:m` on the day that starts at `midnight`. */
  function At(midnight: int, h: int, m: int): int
  {
    midnight + h * HourMs + m * MinuteMs
  }

  function Visit(summary: string, start: int, end: int): Appointment
  {
    Appointment(summary, "", start, end, None, None, None)
  }

  /** Existing `[10:00–10:20]` and `[10:40–11:00]`, a Moderate request at 09:00:
      the first gap the scan meets is the 55 minutes between the 09:05 floor and
      10:00, so the new slot is `[09:05–09:25]` and the existing ones stay. */
  lemma GapBeforeFirstAppointment(midnight: int)
    ensures var existing := [Visit("A", At(midnight, 10, 0), At(midnight, 10, 20)),
                             Visit("B", At(midnight, 10, 40), At(midnight, 11, 0))];
      var a := Allocate(Moderate, existing, At(midnight, 9, 0));
      && a.updated == existing
      && a.inserted.start == At(midnight, 9, 5) && a.inserted.end == At(midnight, 9, 25)
  {
    var existing := [Visit("A", At(midnight, 10, 0), At(midnight, 10, 20)),
                     Visit("B", At(midnight, 10, 40), At(midnight, 11, 0))];
    SortKeepsSorted(existing);
    assert existing[1..] == [existing[1]] && existing[1..][1..] == [];
  }

  /** Existing `[09:05–09:40]` and `[09:50–10:10]`, a Mild request at 09:00:
      neither the floor nor the ten-minute hole leaves twenty minutes, so the
      new slot goes right after the last end, `[10:10–10:30]`. */
  lemma AppendAfterLastEnd(midnight: int)
    ensures var existing := [Visit("A", At(midnight, 9, 5), At(midnight, 9, 40)),
                             Visit("B", At(midnight, 9, 50), At(midnight, 10, 10))];
      var a := Allocate(Mild, existing, At(midnight, 9, 0));
      && a.updated == existing
      && a.inserted.start == At(midnight, 10, 10) && a.inserted.end == At(midnight, 10, 30)
  {
    var existing := [Visit("A", At(midnight, 9, 5), At(midnight, 9, 40)),
                     Visit("B", At(midnight, 9, 50), At(midnight, 10, 10))];
    SortKeepsSorted(existing);
    assert existing[1..] == [existing[1]] && existing[1..][1..] == [];
    assert FirstGapStart([existing[1]], At(midnight, 9, 40)) == FirstGapStart([], At(midnight, 10, 10));
    assert FirstGapStart(existing, At(midnight, 9, 5)) == FirstGapStart([existing[1]], At(midnight, 9, 40));
  }

  /** Existing `[09:10–09:30]` and `[09:30–09:50]`, a Critical request at 09:00:
      the new slot is `[09:05–09:25]` and the two move to `[09:25–09:45]` and
      `[09:45–10:05]`, in the same order and each still twenty minutes long. */
  lemma CriticalBump(midnight: int)
    ensures var existing := [Visit("A", At(midnight, 9, 10), At(midnight, 9, 30)),
                             Visit("B", At(midnight, 9, 30), At(midnight, 9, 50))];
      var a := Allocate(Critical, existing, At(midnight, 9, 0));
      && a.inserted.start == At(midnight, 9, 5) && a.inserted.end == At(midnight, 9, 25)
      && a.updated == [Visit("A", At(midnight, 9, 25), At(midnight, 9, 45)),
                       Visit("B", At(midnight, 9, 45), At(midnight, 10, 5))]
  {
    var existing := [Visit("A", At(midnight, 9, 10), At(midnight, 9, 30)),
                     Visit("B", At(midnight, 9, 30), At(midnight, 9, 50))];
    SortKeepsSorted(existing);
    assert existing[1..] == [existing[1]] && existing[1..][1..] == [];
    assert Shift([existing[1]], At(midnight, 9, 45))
        == [Visit("B", At(midnight, 9, 45), At(midnight, 10, 5))] + Shift([], At(midnight, 10, 5));
    assert Shift(existing, At(midnight, 9, 25))
        == [Visit("A", At(midnight, 9, 25), At(midnight, 9, 45))] + Shift([existing[1]], At(midnight, 9, 45));
  }

  /** The bump packs the existing appointments behind the new slot whatever
      their times, so it can move one earlier: a lone `[12:00–12:20]` and a
      Critical request at 09:00 give `[09:05–09:25]` and pull the existing one
      forward to `[09:25–09:45]`. */
  lemma CriticalBumpPullsEarlier(midnight: int)
    ensures var existing := [Visit("X", At(midnight, 12, 0), At(midnight, 12, 20))];
      var a := Allocate(Critical, existing, At(midnight, 9, 0));
      && a.inserted.start == At(midnight, 9, 5)
      && a.updated == [Visit("X", At(midnight, 9, 25), At(midnight, 9, 45))]
      && a.updated[0].start < existing[0].start
  {
    var existing := [Visit("X", At(midnight, 12, 0), At(midnight, 12, 20))];
    SortKeepsSorted(existing);
    assert existing[1..] == [];
    assert Shift(existing, At(midnight, 9, 25))
        == [Visit("X", At(midnight, 9, 25), At(midnight, 9, 45))] + Shift([], At(midnight, 9, 45));
  }

  /** The day `[A: 09:00–09:20]`, `[B: 09:20–09:45]`, `[C: 09:45–10:05]` with B
      cancelled becomes `[A: 09:00–09:20]`, `[C: 09:20–09:40]`: C keeps its
      twenty minutes and moves up to close the hole. */
  lemma CancelClosesGap(midnight: int)
    ensures var day := [Visit("A", At(midnight, 9, 0), At(midnight, 9, 20)),
                        Visit("B", At(midnight, 9, 20), At(midnight, 9, 45)),
                        Visit("C", At(midnight, 9, 45), At(midnight, 10, 5))];
      Reflow(RemoveAt(day, 1)) == [Visit("A", At(midnight, 9, 0), At(midnight, 9, 20)),
                                   Visit("C", At(midnight, 9, 20), At(midnight, 9, 40))]
  {
    var day := [Visit("A", At(midnight, 9, 0), At(midnight, 9, 20)),
                Visit("B", At(midnight, 9, 20), At(midnight, 9, 45)),
                Visit("C", At(midnight, 9, 45), At(midnight, 10, 5))];
    var rest := RemoveAt(day, 1);
    assert rest == [day[0], day[2]];
    assert rest[..1] == [day[0]];
    assert EarliestStart(rest) == At(midnight, 9, 0);
    assert rest[1..] == [day[2]] && rest[1..][1..] == [];
    assert Rebuild([day[2]], At(midnight, 9, 20))
        == [Visit("C", At(midnight, 9, 20), At(midnight, 9, 40))] + Rebuild([], At(midnight, 9, 40));
    assert Rebuild(rest, At(midnight, 9, 0))
        == [Visit("A", At(midnight, 9, 0), At(midnight, 9, 20))] + Rebuild([day[2]], At(midnight, 9, 20));
  }

  /** The reflow lays a day out in list order, not by start time. A non-Critical
      commit appends its slot `[Y 09:05–09:25]` behind `[A 10:00–10:20]` and
      `[B 10:20–10:40]`; cancelling B then puts A at 09:05 and Y behind it. */
  lemma ReflowFollowsListOrder(midnight: int)
    ensures var day := [Visit("A", At(midnight, 10, 0), At(midnight, 10, 20)),
                        Visit("B", At(midnight, 10, 20), At(midnight, 10, 40)),
                        Visit("Y", At(midnight, 9, 5), At(midnight, 9, 25))];
      Reflow(RemoveAt(day, 1)) == [Visit("A", At(midnight, 9, 5), At(midnight, 9, 25)),
                                   Visit("Y", At(midnight, 9, 25), At(midnight, 9, 45))]
  {
    var day := [Visit("A", At(midnight, 10, 0), At(midnight, 10, 20)),
                Visit("B", At(midnight, 10, 20), At(midnight, 10, 40)),
                Visit("Y", At(midnight, 9, 5), At(midnight, 9, 25))];
    var rest := RemoveAt(day, 1);
    assert rest == [day[0], day[2]];
    assert rest[..1] == [day[0]];
    assert EarliestStart(rest) == At(midnight, 9, 5);
    assert rest[1..] == [day[2]] && rest[1..][1..] == [];
    assert Rebuild([day[2]], At(midnight, 9, 25))
        == [Visit("Y", At(midnight, 9, 25), At(midnight, 9, 45))] + Rebuild([], At(midnight, 9, 45));
    assert Rebuild(rest, At(midnight, 9, 5))
        == [Visit("A", At(midnight, 9, 5), At(midnight, 9, 25))] + Rebuild([day[2]], At(midnight, 9, 25));
  }

  /** The bump keeps each record's raw duration, so a record whose end precedes
      its start drags its successor in front of the new Critical slot: with
      `[10:00–09:00]` and `[10:30–10:50]` and a Critical request at 09:00, the
      second record lands at `[08:25–08:45]`, before the 09:05 floor and before
      the new slot that the commit puts in front of it. */
  lemma NegativeDurationEscapesFloor(midnight: int)
    ensures var existing := [Visit("A", At(midnight, 10, 0), At(midnight, 9, 0)),
                             Visit("B", At(midnight, 10, 30), At(midnight, 10, 50))];
      var a := Allocate(Critical, existing, At(midnight, 9, 0));
      && a.inserted.start == At(midnight, 9, 5)
      && |a.updated| == 2
      && a.updated[1].start == At(midnight, 8, 25)
      && a.updated[1].start < BaseStart(At(midnight, 9, 0))
  {
    var existing := [Visit("A", At(midnight, 10, 0), At(midnight, 9, 0)),
                     Visit("B", At(midnight, 10, 30), At(midnight, 10, 50))];
    SortKeepsSorted(existing);
    assert existing[1..] == [existing[1]] && existing[1..][1..] == [];
    assert Shift([existing[1]], At(midnight, 8, 25))
        == [Visit("B", At(midnight, 8, 25), At(midnight, 8, 45))] + Shift([], At(midnight, 8, 45));
    assert Shift(existing, At(midnight, 9, 25))
        == [Visit("A", At(midnight, 9, 25), At(midnight, 8, 25))] + Shift([existing[1]], At(midnight, 8, 25));
  }
}
