/** Shared vocabulary of the appointment timeline: severity levels, the appointment
    record, the fixed lead time and slot length, and what it means for a list of
    appointments to be laid out back to back. All timestamps are integer
    milliseconds since the epoch. */
module Timeline {

  datatype Option<+T> = None | Some(value: T)

  /** Triage severity, in increasing urgency. */
  datatype Severity = Minimal | Mild | Moderate | Concerning | Critical

  /** The label the application prints for a severity level. */
  function SeverityName(s: Severity): string
  {
    match s
    case Minimal => "Minimal"
    case Mild => "Mild"
    case Moderate => "Moderate"
    case Concerning => "Concerning"
    case Critical => "Critical"
  }

  /** The five levels in the order the application lists them. */
  const Severities: seq<Severity> := [Minimal, Mild, Moderate, Concerning, Critical]

  /** An opaque reference to the facility the user selected on the map. */
  type Hospital = string

  /** One appointment record. `severity`, `hospital` and `topic` are optional. */
  datatype Appointment = Appointment(
    summary: string,
    description: string,
    start: int,
    end: int,
    severity: Option<Severity>,
    hospital: Option<Hospital>,
    topic: Option<string>)

  const MinuteMs: int := 60 * 1000
  const HourMs: int := 60 * MinuteMs

  /** The buffer between "now" and the earliest start the allocator offers. */
  const LeadTimeMs: int := 5 * MinuteMs

  /** The length of every slot the allocator creates, and the reflow fallback. */
  const SlotMs: int := 20 * MinuteMs

  function Duration(a: Appointment): int
  {
    a.end - a.start
  }

  /** `b` is `a` moved in time: every field other than `start` and `end` agrees. */
  predicate SameRecord(a: Appointment, b: Appointment)
  {
    a.(start := b.start, end := b.end) == b
  }

  /** The half-open intervals `[s1, e1)` and `[s2, e2)` share at least one instant. */
  predicate Intersects(s1: int, e1: int, s2: int, e2: int)
  {
    s1 < e1 && s2 < e2 && s1 < e2 && s2 < e1
  }

  predicate Overlap(a: Appointment, b: Appointment)
  {
    Intersects(a.start, a.end, b.start, b.end)
  }

  /** The appointment at `i` starts exactly where the one before it ends. */
  predicate Abuts(s: seq<Appointment>, i: int)
    requires 0 < i < |s|
  {
    s[i].start == s[i - 1].end
  }

  /** Every appointment after the first starts where its predecessor ends. */
  predicate BackToBack(s: seq<Appointment>)
  {
    forall i | 0 < i < |s| :: Abuts(s, i)
  }

  predicate SortedByStart(s: seq<Appointment>)
  {
    forall i, j | 0 <= i < j < |s| :: s[i].start <= s[j].start
  }

  predicate NonNegativeDurations(s: seq<Appointment>)
  {
    forall i | 0 <= i < |s| :: Duration(s[i]) >= 0
  }

  /** No two appointments of `s` occupy a common instant. */
  predicate PairwiseDisjoint(s: seq<Appointment>)
  {
    forall i, j | 0 <= i < j < |s| :: !Overlap(s[i], s[j])
  }

  lemma {:induction false} EndPrecedesLaterStart(s: seq<Appointment>, i: int, j: int)
    requires BackToBack(s) && NonNegativeDurations(s)
    requires 0 <= i < j < |s|
    ensures s[i].end <= s[j].start
    decreases j - i
  {
    assert Abuts(s, j);
    if j > i + 1 {
      EndPrecedesLaterStart(s, i, j - 1);
      assert Duration(s[j - 1]) >= 0;
    }
  }

  /** A back-to-back layout without negative durations is in start order and has
      no two appointments overlapping. */
  lemma BackToBackIsSortedAndDisjoint(s: seq<Appointment>)
    requires BackToBack(s) && NonNegativeDurations(s)
    ensures SortedByStart(s)
    ensures PairwiseDisjoint(s)
  {
    forall i, j | 0 <= i < j < |s|
      ensures s[i].start <= s[j].start && !Overlap(s[i], s[j])
    {
      EndPrecedesLaterStart(s, i, j);
      assert Duration(s[i]) >= 0;
    }
  }
}
