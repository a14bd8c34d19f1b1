/** The demo-day generator: back-to-back intake appointments of one length from a
    start hour up to an end hour, each with a severity drawn by weight and an
    injury drawn uniformly for that severity. The random draws are parameters:
    `draws(n)` is the n-th value of the uniform generator, in [0, 1). The clock
    is the browser's local time, taken here as a fixed offset from the given
    local midnight `dayStart`. */
module FakeAppointments {
  import opened Timeline

  // ---------------------------------------------------------------------------
  // Weighted choice

  /** The running total of the first `i` weights. */
  function Prefix(w: seq<real>, i: int): real
    requires 0 <= i <= |w|
  {
    if i == 0 then 0.0 else Prefix(w, i - 1) + w[i - 1]
  }

  function Sum(w: seq<real>): real
  {
    Prefix(w, |w|)
  }

  /** The running total up to and including weight `j`. */
  function Through(w: seq<real>, j: int): real
    requires 0 <= j < |w|
  {
    Prefix(w, j + 1)
  }

  predicate NonNegative(w: seq<real>)
  {
    forall i | 0 <= i < |w| :: w[i] >= 0.0
  }

  /** Position `i` is the first whose running total exceeds `r`. */
  predicate FirstAbove(w: seq<real>, r: real, i: int)
    requires 0 <= i < |w|
  {
    r < Through(w, i) && forall j | 0 <= j < i :: r >= Through(w, j)
  }

  /** Draws an index with probability proportional to its weight, from the
      uniform draw `u`: scales `u` by the total weight, then walks the weights
      subtracting each from the remainder until it falls below one. Falls back
      to the last index. */
  method WeightedChoice(weights: seq<real>, u: real) returns (i: int)
    ensures |weights| > 0 ==> 0 <= i < |weights|
    ensures |weights| == 0 ==> i == -1
    ensures (exists j | 0 <= j < |weights| :: u * Sum(weights) < Through(weights, j)) ==>
              0 <= i < |weights| && FirstAbove(weights, u * Sum(weights), i)
    ensures (forall j | 0 <= j < |weights| :: u * Sum(weights) >= Through(weights, j)) ==>
              i == |weights| - 1
  {
    var sum := 0.0;
    for k := 0 to |weights|
      invariant sum == Prefix(weights, k)
    {
      sum := sum + weights[k];
    }
    var r := u * sum;
    ghost var r0 := r;
    for k := 0 to |weights|
      invariant r == r0 - Prefix(weights, k)
      invariant forall j | 0 <= j < k :: r0 >= Through(weights, j)
    {
      if r < weights[k] {
        return k;
      }
      r := r - weights[k];
    }
    return |weights| - 1;
  }

  /** With non-negative weights, a draw in [0, 1) and a positive total, the index
      chosen by the first-above rule has a positive weight whose interval
      `[Prefix(i), Prefix(i + 1))` holds the scaled draw: an index is picked
      exactly when the scaled draw lands in its share of the total. */
  lemma ChoiceLandsInShare(weights: seq<real>, u: real)
    requires NonNegative(weights) && 0.0 <= u < 1.0 && Sum(weights) > 0.0
    ensures exists j | 0 <= j < |weights| :: u * Sum(weights) < Through(weights, j)
    ensures forall i | 0 <= i < |weights| && FirstAbove(weights, u * Sum(weights), i) ::
              Prefix(weights, i) <= u * Sum(weights) < Through(weights, i) && weights[i] > 0.0
  {
    var r := u * Sum(weights);
    assert r < Sum(weights) by {
      assert Sum(weights) - r == (1.0 - u) * Sum(weights);
    }
    assert r >= 0.0;
    assert |weights| > 0;
    assert r < Through(weights, |weights| - 1);
    forall i | 0 <= i < |weights| && FirstAbove(weights, r, i)
      ensures Prefix(weights, i) <= r
    {
      if i > 0 {
        assert r >= Through(weights, i - 1);
      }
    }
  }

  // ---------------------------------------------------------------------------
  // The generator

  /** The weights of the five severities, in the order of `Severities`: more
      low-severity intakes than critical ones. */
  const SeverityWeights: seq<real> := [30.0, 25.0, 20.0, 15.0, 10.0]

  /** The injuries an intake of each severity may describe. */
  function Injuries(s: Severity): (r: seq<string>)
    ensures |r| == 3
  {
    match s
    case Minimal => ["Minor cut", "Small bruise", "Mild headache"]
    case Mild => ["Sprained wrist", "Mild fracture", "Deep cut needing stitches"]
    case Moderate => ["Broken arm", "Deep laceration", "Concussion"]
    case Concerning => ["Difficulty breathing", "Severe abdominal pain", "Large head injury"]
    case Critical => ["Unconscious", "Severe bleeding", "Chest pain / possible heart attack"]
  }

  /** The generator stops after this many appointments whatever the hours say. */
  const MaxAppointments: int := 501

  /** The local hour of day of `t`, for a day that starts at `dayStart`. */
  function LocalHours(t: int, dayStart: int): int
  {
    ((t - dayStart) / HourMs) % 24
  }

  /** The local minute of the hour of `t`. */
  function LocalMinutes(t: int, dayStart: int): int
  {
    ((t - dayStart) / MinuteMs) % 60
  }

  /** The loop condition: the cursor's hour is before `endHour`, or it is exactly
      `endHour:00`. */
  predicate BeforeEnd(t: int, dayStart: int, endHour: int)
  {
    LocalHours(t, dayStart) < endHour || (LocalHours(t, dayStart) == endHour && LocalMinutes(t, dayStart) == 0)
  }

  /** An intake record: a severity, and a summary and description that name one
      of that severity's injuries, the description also naming the severity. */
  predicate IsIntake(a: Appointment)
  {
    && a.severity.Some?
    && a.hospital == None && a.topic == None
    && exists j | 0 <= j < |Injuries(a.severity.value)| ::
         && a.summary == "ER intake: " + Injuries(a.severity.value)[j]
         && a.description == "Patient arriving with " + Injuries(a.severity.value)[j]
                             + ". Severity: " + SeverityName(a.severity.value)
  }

  /** The intake record for the `j`-th injury of `severity` over `[start, end)`. */
  function IntakeRecord(severity: Severity, j: int, start: int, end: int): (a: Appointment)
    requires 0 <= j < |Injuries(severity)|
    ensures IsIntake(a) && a.start == start && a.end == end && a.severity == Some(severity)
  {
    var injury := Injuries(severity)[j];
    Appointment("ER intake: " + injury,
                "Patient arriving with " + injury + ". Severity: " + SeverityName(severity),
                start, end, Some(severity), None, None)
  }

  /** Where the cursor stands after laying out `s` from `first`. */
  function NextStart(s: seq<Appointment>, first: int): int
  {
    if |s| == 0 then first else s[|s| - 1].end
  }

  /** `s` starts at `first`, every slot lasts `len` and each starts where the
      previous one ends. */
  predicate SlotsFrom(s: seq<Appointment>, first: int, len: int)
  {
    && (|s| > 0 ==> s[0].start == first)
    && (forall i | 0 <= i < |s| :: Duration(s[i]) == len)
    && BackToBack(s)
  }

  /** Appending a slot of length `len` at the cursor extends the layout. */
  lemma AppendSlot(s: seq<Appointment>, first: int, len: int, a: Appointment)
    requires SlotsFrom(s, first, len)
    requires a.start == NextStart(s, first) && Duration(a) == len
    ensures SlotsFrom(s + [a], first, len)
    ensures NextStart(s + [a], first) == a.end
  {
    var t := s + [a];
    forall i | 0 < i < |t| ensures Abuts(t, i) {
      if i < |s| {
        assert Abuts(s, i);
      }
    }
  }

  /** Every appointment of `s` started while the loop condition held. */
  predicate StartedBeforeEnd(s: seq<Appointment>, dayStart: int, endHour: int)
  {
    forall i | 0 <= i < |s| :: BeforeEnd(s[i].start, dayStart, endHour)
  }

  predicate AllIntakes(s: seq<Appointment>)
  {
    forall i | 0 <= i < |s| :: IsIntake(s[i])
  }

  lemma AppendStarted(s: seq<Appointment>, dayStart: int, endHour: int, a: Appointment)
    requires StartedBeforeEnd(s, dayStart, endHour) && BeforeEnd(a.start, dayStart, endHour)
    ensures StartedBeforeEnd(s + [a], dayStart, endHour)
  {
    var t := s + [a];
    forall i | 0 <= i < |t| ensures BeforeEnd(t[i].start, dayStart, endHour) {
      if i < |s| {
        assert t[i] == s[i];
      }
    }
  }

  /** What the generator keeps true of the layout built so far. */
  predicate DaySoFar(s: seq<Appointment>, first: int, len: int, dayStart: int, endHour: int)
  {
    SlotsFrom(s, first, len) && StartedBeforeEnd(s, dayStart, endHour)
  }

  lemma AppendToDay(s: seq<Appointment>, first: int, len: int, dayStart: int, endHour: int, a: Appointment)
    requires DaySoFar(s, first, len, dayStart, endHour)
    requires a.start == NextStart(s, first) && Duration(a) == len
    requires BeforeEnd(a.start, dayStart, endHour)
    ensures DaySoFar(s + [a], first, len, dayStart, endHour)
    ensures NextStart(s + [a], first) == a.end
  {
    AppendSlot(s, first, len, a);
    AppendStarted(s, dayStart, endHour, a);
  }

  /** The five weights add up to 100. */
  lemma SeverityWeightsTotal()
    ensures NonNegative(SeverityWeights) && Sum(SeverityWeights) == 100.0
  {
    var w := SeverityWeights;
    assert Prefix(w, 1) == 30.0 && Prefix(w, 2) == 55.0 && Prefix(w, 3) == 75.0;
    assert Prefix(w, 4) == 90.0 && Prefix(w, 5) == 100.0;
  }

  /** The severity whose band of the running weights holds the scaled draw:
      `[0, 30)` Minimal, `[30, 55)` Mild, `[55, 75)` Moderate, `[75, 90)`
      Concerning and from 90 on Critical. */
  function SeverityBand(u: real): Severity
  {
    var r := u * 100.0;
    if r < 30.0 then Minimal
    else if r < 55.0 then Mild
    else if r < 75.0 then Moderate
    else if r < 90.0 then Concerning
    else Critical
  }

  /** For a uniform draw, the weighted choice picks position `k` exactly when
      `k` is the position of the draw's severity band. */
  lemma SeverityBandIsFirstAbove(u: real, k: int)
    requires 0.0 <= u < 1.0 && 0 <= k < |Severities|
    ensures FirstAbove(SeverityWeights, u * Sum(SeverityWeights), k) <==> Severities[k] == SeverityBand(u)
  {
    var w := SeverityWeights;
    SeverityWeightsTotal();
    assert Through(w, 0) == 30.0 && Through(w, 1) == 55.0 && Through(w, 2) == 75.0;
    assert Through(w, 3) == 90.0 && Through(w, 4) == 100.0;
    assert u * Sum(w) == u * 100.0;
  }

  lemma ChosenBand(u: real, idx: int)
    requires 0.0 <= u < 1.0 && 0 <= idx < |SeverityWeights|
    requires FirstAbove(SeverityWeights, u * Sum(SeverityWeights), idx)
    ensures Severities[idx] == SeverityBand(u)
  {
    SeverityBandIsFirstAbove(u, idx);
  }

  /** `a` is the intake the two draws select: the severity of the band that
      `severityDraw` falls in, and the injury of that severity's three that
      `injuryDraw` picks uniformly. */
  predicate DrawnFrom(a: Appointment, severityDraw: real, injuryDraw: real)
  {
    && 0.0 <= injuryDraw < 1.0
    && a == IntakeRecord(SeverityBand(severityDraw),
                         UniformPick(injuryDraw, |Injuries(SeverityBand(severityDraw))|), a.start, a.end)
  }

  /** The position a uniform draw in [0, 1) picks among `n` equally likely ones. */
  function UniformPick(u: real, n: nat): (j: int)
    requires 0.0 <= u < 1.0 && n > 0
    ensures 0 <= j < n
  {
    assert u * (n as real) < n as real by {
      assert n as real - u * (n as real) == (1.0 - u) * (n as real);
    }
    (u * (n as real)).Floor
  }

  /** A uniform draw always lands below some running total of the severity
      weights, so the walk in `WeightedChoice` returns from inside its loop. */
  lemma SeverityDrawLands(u: real)
    requires 0.0 <= u < 1.0
    ensures exists j | 0 <= j < |SeverityWeights| :: u * Sum(SeverityWeights) < Through(SeverityWeights, j)
  {
    SeverityWeightsTotal();
    ChoiceLandsInShare(SeverityWeights, u);
  }

  /** One intake over `[start, end)`: the severity drawn by weight from
      `severityDraw`, then one of its injuries drawn uniformly from `injuryDraw`. */
  method DrawIntake(severityDraw: real, injuryDraw: real, start: int, end: int) returns (appt: Appointment)
    requires 0.0 <= severityDraw < 1.0 && 0.0 <= injuryDraw < 1.0
    ensures appt.start == start && appt.end == end
    ensures DrawnFrom(appt, severityDraw, injuryDraw)
  {
    SeverityDrawLands(severityDraw);
    var idx := WeightedChoice(SeverityWeights, severityDraw);
    ChosenBand(severityDraw, idx);
    var severity := Severities[idx];
    var injuries := Injuries(severity);
    var pick := UniformPick(injuryDraw, |injuries|);
    appt := IntakeRecord(severity, pick, start, end);
    assert appt == IntakeRecord(SeverityBand(severityDraw), pick, appt.start, appt.end);
  }

  /** The `i`-th appointment of `s` is the intake selected by its own pair of
      draws: `draws(2 * i)` for the severity and `draws(2 * i + 1)` for the
      injury. */
  predicate DrawnAt(s: seq<Appointment>, draws: nat -> real, i: int)
    requires 0 <= i < |s|
  {
    DrawnFrom(s[i], draws(2 * i), draws(2 * i + 1))
  }

  predicate AllDrawn(s: seq<Appointment>, draws: nat -> real)
  {
    forall i | 0 <= i < |s| :: DrawnAt(s, draws, i)
  }

  lemma AppendDrawn(s: seq<Appointment>, draws: nat -> real, a: Appointment)
    requires AllDrawn(s, draws) && DrawnFrom(a, draws(2 * |s|), draws(2 * |s| + 1))
    ensures AllDrawn(s + [a], draws)
  {
    var t := s + [a];
    forall i | 0 <= i < |t| ensures DrawnAt(t, draws, i) {
      if i < |s| {
        assert DrawnAt(s, draws, i) && t[i] == s[i];
      }
    }
  }

  /** An appointment drawn from two draws is an intake record. */
  lemma DrawnIsIntake(a: Appointment, severityDraw: real, injuryDraw: real)
    requires DrawnFrom(a, severityDraw, injuryDraw)
    ensures IsIntake(a) && a.severity == Some(SeverityBand(severityDraw))
  {
  }

  lemma DrawnAreIntakes(s: seq<Appointment>, draws: nat -> real)
    requires AllDrawn(s, draws)
    ensures AllIntakes(s)
  {
    forall i | 0 <= i < |s| ensures IsIntake(s[i]) {
      assert DrawnAt(s, draws, i);
      DrawnIsIntake(s[i], draws(2 * i), draws(2 * i + 1));
    }
  }

  /** Builds the demo day. The first appointment starts at `startHour:00` of the
      day; each lasts `slotMinutes`, starts where the previous one ended and
      started while the loop condition held; the list stops when the condition
      fails or at `MaxAppointments`. */
  method GenerateDailyAppointments(dayStart: int, startHour: int, endHour: int, slotMinutes: int,
                                   draws: nat -> real)
    returns (appointments: seq<Appointment>)
    requires forall n: nat :: 0.0 <= draws(n) < 1.0
    ensures |appointments| <= MaxAppointments
    ensures SlotsFrom(appointments, dayStart + startHour * HourMs, slotMinutes * MinuteMs)
    ensures StartedBeforeEnd(appointments, dayStart, endHour)
    ensures AllIntakes(appointments) && AllDrawn(appointments, draws)
    ensures |appointments| < MaxAppointments ==>
              !BeforeEnd(NextStart(appointments, dayStart + startHour * HourMs), dayStart, endHour)
  {
    appointments := [];
    var cursor := dayStart + startHour * HourMs;
    ghost var first := cursor;
    var slotLength := slotMinutes * MinuteMs;
    while BeforeEnd(cursor, dayStart, endHour)
      invariant |appointments| < MaxAppointments
      invariant cursor == NextStart(appointments, first)
      invariant DaySoFar(appointments, first, slotLength, dayStart, endHour)
      invariant AllDrawn(appointments, draws)
      decreases MaxAppointments - |appointments|
    {
      var n := 2 * |appointments|;
      var appt := DrawIntake(draws(n), draws(n + 1), cursor, cursor + slotLength);
      AppendToDay(appointments, first, slotLength, dayStart, endHour, appt);
      AppendDrawn(appointments, draws, appt);
      appointments := appointments + [appt];
      cursor := cursor + slotLength;
      if |appointments| > 500 {
        break;
      }
    }
    DrawnAreIntakes(appointments, draws);
  }

  // ---------------------------------------------------------------------------
  // Properties of a generated day

  /** The `i`-th slot starts `i` slot lengths after the first. */
  lemma {:induction false} SlotStart(s: seq<Appointment>, first: int, len: int, i: int)
    requires SlotsFrom(s, first, len) && 0 <= i < |s|
    ensures s[i].start == first + i * len
    decreases i
  {
    if i > 0 {
      SlotStart(s, first, len, i - 1);
      assert Abuts(s, i);
    }
  }

  /** Slots of a non-negative length laid out from `first` are in start order,
      never overlap, and the `i`-th starts at `first + i * len`. */
  lemma SlotsAreOrderedAndDisjoint(s: seq<Appointment>, first: int, len: int)
    requires SlotsFrom(s, first, len) && len >= 0
    ensures SortedByStart(s) && PairwiseDisjoint(s)
    ensures forall i | 0 <= i < |s| :: s[i].start == first + i * len
  {
    BackToBackIsSortedAndDisjoint(s);
    forall i | 0 <= i < |s| ensures s[i].start == first + i * len {
      SlotStart(s, first, len, i);
    }
  }

  /** On the default options, the `k`-th twenty-minute slot from 8:00 reads
      `(8 + k / 3):(20 * (k % 3))` on the local clock. */
  lemma DefaultSlotClock(dayStart: int, k: int)
    requires k >= 0
    ensures LocalHours(dayStart + 8 * HourMs + k * (20 * MinuteMs), dayStart) == (8 + k / 3) % 24
    ensures LocalMinutes(dayStart + 8 * HourMs + k * (20 * MinuteMs), dayStart) == 20 * (k % 3)
  {
    var q, r := k / 3, k % 3;
    var x := 8 * HourMs + k * (20 * MinuteMs);
    assert x == 3600000 * (8 + q) + 1200000 * r;
    assert x / HourMs == 8 + q;
    assert x == 60000 * (480 + 60 * q + 20 * r);
    assert x / MinuteMs == 480 + 60 * q + 20 * r;
    assert (480 + 60 * q + 20 * r) % 60 == 20 * r;
  }

  /** With the default options (8:00 to 18:00 in twenty-minute slots) a day
      holds exactly 31 intakes, the last one starting at 18:00. */
  lemma DefaultDayHasThirtyOneIntakes(appointments: seq<Appointment>, dayStart: int)
    requires |appointments| <= MaxAppointments
    requires SlotsFrom(appointments, dayStart + 8 * HourMs, 20 * MinuteMs)
    requires StartedBeforeEnd(appointments, dayStart, 18)
    requires |appointments| < MaxAppointments ==>
               !BeforeEnd(NextStart(appointments, dayStart + 8 * HourMs), dayStart, 18)
    ensures |appointments| == 31
    ensures appointments[30].start == dayStart + 18 * HourMs
  {
    var first, len := dayStart + 8 * HourMs, 20 * MinuteMs;
    var n := |appointments|;
    assert n <= 31 by {
      if n > 31 {
        SlotStart(appointments, first, len, 31);
        DefaultSlotClock(dayStart, 31);
      }
    }
    assert n >= 31 by {
      if n < 31 {
        if n > 0 {
          SlotStart(appointments, first, len, n - 1);
        }
        assert NextStart(appointments, first) == first + n * len;
        DefaultSlotClock(dayStart, n);
      }
    }
    SlotStart(appointments, first, len, 30);
  }
}
