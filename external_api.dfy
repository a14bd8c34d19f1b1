/** The calendar view: the store's appointments grouped by calendar day, and
    cancellation, which removes one appointment of a day, lays the remaining
    ones of that day out again back to back, and writes the union of all days
    back to the store. The calendar day of a timestamp (the browser's local
    `toDateString`) is the parameter `dayOf`. */
module ExternalApi {
  import opened Timeline
  import opened Store

  type DayKey = string

  // ---------------------------------------------------------------------------
  // Grouping by day

  /** The appointments of `s` on day `k`, in their order in `s`. */
  function OnDay(s: seq<Appointment>, dayOf: int -> DayKey, k: DayKey): seq<Appointment>
  {
    if s == [] then []
    else OnDay(s[..|s| - 1], dayOf, k) + (if dayOf(s[|s| - 1].start) == k then [s[|s| - 1]] else [])
  }

  /** The days of `s` in the order they first occur. */
  function DayKeys(s: seq<Appointment>, dayOf: int -> DayKey): seq<DayKey>
  {
    if s == [] then []
    else
      var keys := DayKeys(s[..|s| - 1], dayOf);
      var k := dayOf(s[|s| - 1].start);
      if k in keys then keys else keys + [k]
  }

  /** A dictionary from day to that day's appointments, with its keys in
      insertion order (the order in which the view enumerates them). */
  datatype Grouping = Grouping(keys: seq<DayKey>, lists: map<DayKey, seq<Appointment>>)

  predicate Distinct(keys: seq<DayKey>)
  {
    forall i, j | 0 <= i < j < |keys| :: keys[i] != keys[j]
  }

  predicate WellFormed(g: Grouping)
  {
    && Distinct(g.keys)
    && (forall k | k in g.keys :: k in g.lists)
    && (forall k | k in g.lists :: k in g.keys)
  }

  /** The grouping of `s` by day. */
  function GroupByDay(s: seq<Appointment>, dayOf: int -> DayKey): Grouping
  {
    var keys := DayKeys(s, dayOf);
    Grouping(keys, map k | k in keys :: OnDay(s, dayOf, k))
  }

  /** The day lists one after another, in key order. */
  function Flatten(keys: seq<DayKey>, lists: map<DayKey, seq<Appointment>>): seq<Appointment>
    requires forall k | k in keys :: k in lists
  {
    if keys == [] then [] else lists[keys[0]] + Flatten(keys[1..], lists)
  }

  function FlattenGrouping(g: Grouping): seq<Appointment>
    requires WellFormed(g)
  {
    Flatten(g.keys, g.lists)
  }

  lemma {:induction false} OnDayBelongs(s: seq<Appointment>, dayOf: int -> DayKey, k: DayKey)
    ensures forall x | x in OnDay(s, dayOf, k) :: x in s && dayOf(x.start) == k
  {
    if s != [] {
      OnDayBelongs(s[..|s| - 1], dayOf, k);
    }
  }

  /** Grouping keeps the relative order within a day: the day list of a
      concatenation is the concatenation of the day lists. */
  lemma {:induction false} OnDayDistributes(s: seq<Appointment>, t: seq<Appointment>, dayOf: int -> DayKey, k: DayKey)
    ensures OnDay(s + t, dayOf, k) == OnDay(s, dayOf, k) + OnDay(t, dayOf, k)
  {
    if t != [] {
      var n := |t| - 1;
      assert (s + t)[..|s + t| - 1] == s + t[..n];
      OnDayDistributes(s, t[..n], dayOf, k);
    } else {
      assert s + t == s;
    }
  }

  /** Each appointment lands under the day of its start and nowhere else. */
  lemma OnDaySingleton(a: Appointment, dayOf: int -> DayKey, k: DayKey)
    ensures OnDay([a], dayOf, k) == if dayOf(a.start) == k then [a] else []
  {
    assert [a][..0] == [];
  }

  /** The keys are distinct and are exactly the days that occur in `s`. */
  lemma {:induction false} DayKeysSpec(s: seq<Appointment>, dayOf: int -> DayKey)
    ensures Distinct(DayKeys(s, dayOf))
    ensures forall k :: k in DayKeys(s, dayOf) <==> exists i | 0 <= i < |s| :: dayOf(s[i].start) == k
  {
    if s != [] {
      var n := |s| - 1;
      DayKeysSpec(s[..n], dayOf);
      forall k ensures k in DayKeys(s, dayOf) <==> exists i | 0 <= i < |s| :: dayOf(s[i].start) == k {
        if k in DayKeys(s[..n], dayOf) {
          var i :| 0 <= i < n && dayOf(s[..n][i].start) == k;
          assert s[i] == s[..n][i];
        }
        if exists i | 0 <= i < |s| :: dayOf(s[i].start) == k {
          var i :| 0 <= i < |s| && dayOf(s[i].start) == k;
          if i < n {
            assert s[..n][i] == s[i];
          }
        }
      }
    }
  }

  lemma {:induction false} AbsentDayIsEmpty(s: seq<Appointment>, dayOf: int -> DayKey, k: DayKey)
    requires k !in DayKeys(s, dayOf)
    ensures OnDay(s, dayOf, k) == []
  {
    if s != [] {
      AbsentDayIsEmpty(s[..|s| - 1], dayOf, k);
    }
  }

  lemma GroupByDayWellFormed(s: seq<Appointment>, dayOf: int -> DayKey)
    ensures WellFormed(GroupByDay(s, dayOf))
  {
    DayKeysSpec(s, dayOf);
  }

  lemma {:induction false} FlattenSnoc(keys: seq<DayKey>, k: DayKey, lists: map<DayKey, seq<Appointment>>)
    requires forall x | x in keys + [k] :: x in lists
    ensures Flatten(keys + [k], lists) == Flatten(keys, lists) + lists[k]
  {
    if keys != [] {
      assert (keys + [k])[1..] == keys[1..] + [k];
      FlattenSnoc(keys[1..], k, lists);
    }
  }

  lemma {:induction false} FlattenAgree(keys: seq<DayKey>, f: map<DayKey, seq<Appointment>>, g: map<DayKey, seq<Appointment>>)
    requires forall x | x in keys :: x in f && x in g && f[x] == g[x]
    ensures Flatten(keys, f) == Flatten(keys, g)
  {
    if keys != [] {
      FlattenAgree(keys[1..], f, g);
    }
  }

  lemma DistinctTail(keys: seq<DayKey>)
    requires Distinct(keys) && |keys| > 0
    ensures Distinct(keys[1..]) && keys[0] !in keys[1..]
  {
    forall i | 0 <= i < |keys[1..]| ensures keys[1..][i] != keys[0] {
      assert keys[1..][i] == keys[i + 1];
    }
    forall i, j | 0 <= i < j < |keys[1..]| ensures keys[1..][i] != keys[1..][j] {
      assert keys[1..][i] == keys[i + 1] && keys[1..][j] == keys[j + 1];
    }
  }

  /** Appending `a` to the list of one key (which occurs once) adds exactly `a`
      to the flattening. */
  lemma {:induction false} FlattenAppend(keys: seq<DayKey>, lists: map<DayKey, seq<Appointment>>, k: DayKey,
                                         a: Appointment)
    requires Distinct(keys) && k in keys
    requires forall x | x in keys :: x in lists
    ensures multiset(Flatten(keys, lists[k := lists[k] + [a]])) == multiset(Flatten(keys, lists)) + multiset{a}
  {
    var lists' := lists[k := lists[k] + [a]];
    DistinctTail(keys);
    if keys[0] == k {
      FlattenAgree(keys[1..], lists, lists');
      assert Flatten(keys, lists') == (lists[k] + [a]) + Flatten(keys[1..], lists);
      assert Flatten(keys, lists) == lists[k] + Flatten(keys[1..], lists);
    } else {
      FlattenAppend(keys[1..], lists, k, a);
      assert Flatten(keys, lists') == lists[keys[0]] + Flatten(keys[1..], lists');
      assert Flatten(keys, lists) == lists[keys[0]] + Flatten(keys[1..], lists);
    }
  }

  /** Replacing the list of one key (which occurs once) changes the length of the
      flattening by the difference in length between the two lists. */
  lemma {:induction false} FlattenReplaceLength(keys: seq<DayKey>, lists: map<DayKey, seq<Appointment>>, k: DayKey,
                                                v: seq<Appointment>)
    requires Distinct(keys) && k in keys
    requires forall x | x in keys :: x in lists
    ensures |Flatten(keys, lists[k := v])| + |lists[k]| == |Flatten(keys, lists)| + |v|
  {
    DistinctTail(keys);
    if keys[0] == k {
      FlattenAgree(keys[1..], lists, lists[k := v]);
    } else {
      FlattenReplaceLength(keys[1..], lists, k, v);
    }
  }

  /** Flattening the grouping gives back the appointments of `s`, each once. */
  lemma {:induction false} GroupingIsPermutation(s: seq<Appointment>, dayOf: int -> DayKey)
    ensures WellFormed(GroupByDay(s, dayOf))
    ensures multiset(FlattenGrouping(GroupByDay(s, dayOf))) == multiset(s)
  {
    GroupByDayWellFormed(s, dayOf);
    if s != [] {
      var n := |s| - 1;
      GroupingIsPermutation(s[..n], dayOf);
      GroupingSnoc(s[..n], s[n], dayOf);
      assert s == s[..n] + [s[n]];
    }
  }

  /** One more appointment adds exactly that appointment to the flattening. */
  lemma GroupingSnoc(s: seq<Appointment>, a: Appointment, dayOf: int -> DayKey)
    ensures WellFormed(GroupByDay(s, dayOf)) && WellFormed(GroupByDay(s + [a], dayOf))
    ensures multiset(FlattenGrouping(GroupByDay(s + [a], dayOf)))
         == multiset(FlattenGrouping(GroupByDay(s, dayOf))) + multiset{a}
  {
    var key := dayOf(a.start);
    var g, g' := GroupByDay(s, dayOf), GroupByDay(s + [a], dayOf);
    GroupByDayWellFormed(s, dayOf);
    GroupByDayWellFormed(s + [a], dayOf);
    assert (s + [a])[..|s|] == s;
    forall k | k in g.keys ensures g'.lists[k] == g.lists[k] + (if k == key then [a] else []) {
      OnDayDistributes(s, [a], dayOf, k);
      OnDaySingleton(a, dayOf, k);
    }
    if key in g.keys {
      FlattenExistingDay(g, g', key, a);
    } else {
      AbsentDayIsEmpty(s, dayOf, key);
      OnDayDistributes(s, [a], dayOf, key);
      OnDaySingleton(a, dayOf, key);
      FlattenNewDay(g, g', key, a);
    }
  }

  lemma FlattenExistingDay(g: Grouping, g': Grouping, key: DayKey, a: Appointment)
    requires WellFormed(g) && WellFormed(g')
    requires key in g.keys && g'.keys == g.keys
    requires forall k | k in g.keys :: g'.lists[k] == g.lists[k] + (if k == key then [a] else [])
    ensures multiset(FlattenGrouping(g')) == multiset(FlattenGrouping(g)) + multiset{a}
  {
    FlattenAppend(g.keys, g.lists, key, a);
    FlattenAgree(g.keys, g.lists[key := g.lists[key] + [a]], g'.lists);
  }

  lemma FlattenNewDay(g: Grouping, g': Grouping, key: DayKey, a: Appointment)
    requires WellFormed(g) && WellFormed(g')
    requires key !in g.keys && g'.keys == g.keys + [key] && g'.lists[key] == [a]
    requires forall k | k in g.keys :: g'.lists[k] == g.lists[k]
    ensures multiset(FlattenGrouping(g')) == multiset(FlattenGrouping(g)) + multiset{a}
  {
    FlattenSnoc(g.keys, key, g'.lists);
    FlattenAgree(g.keys, g.lists, g'.lists);
  }

  /** The grouping loop of the view: walks the store's list once, creating a
      day's list the first time the day occurs and appending to it. */
  method GroupByDate(appointments: seq<Appointment>, dayOf: int -> DayKey) returns (byDate: Grouping)
    ensures byDate == GroupByDay(appointments, dayOf)
  {
    var keys: seq<DayKey> := [];
    var lists: map<DayKey, seq<Appointment>> := map[];
    for i := 0 to |appointments|
      invariant keys == DayKeys(appointments[..i], dayOf)
      invariant forall k :: k in lists <==> k in keys
      invariant forall k | k in lists :: lists[k] == OnDay(appointments[..i], dayOf, k)
    {
      var a := appointments[i];
      var key := dayOf(a.start);
      assert appointments[..i + 1][..i] == appointments[..i];
      assert appointments[..i + 1][i] == a;
      if key !in lists {
        AbsentDayIsEmpty(appointments[..i], dayOf, key);
        keys := keys + [key];
        lists := lists[key := []];
      }
      lists := lists[key := lists[key] + [a]];
    }
    assert appointments[..|appointments|] == appointments;
    byDate := Grouping(keys, lists);
  }

  // ---------------------------------------------------------------------------
  // Reflow

  /** The length an appointment keeps when re-laid: its own if positive, one
      standard slot for a malformed record. */
  function ReflowDuration(a: Appointment): int
  {
    if Duration(a) > 0 then Duration(a) else SlotMs
  }

  /** `s` laid out back to back from `cursor`. */
  function Rebuild(s: seq<Appointment>, cursor: int): seq<Appointment>
  {
    if s == [] then []
    else
      var d := ReflowDuration(s[0]);
      [s[0].(start := cursor, end := cursor + d)] + Rebuild(s[1..], cursor + d)
  }

  function Min(a: int, b: int): int
  {
    if a <= b then a else b
  }

  /** The earliest start of a non-empty list, folded from the left. */
  function EarliestStart(s: seq<Appointment>): (m: int)
    requires |s| > 0
    ensures exists i | 0 <= i < |s| :: m == s[i].start
    ensures forall i | 0 <= i < |s| :: m <= s[i].start
  {
    if |s| == 1 then s[0].start
    else
      var n := |s| - 1;
      var m := EarliestStart(s[..n]);
      assert forall i | 0 <= i < n :: s[..n][i] == s[i];
      Min(m, s[n].start)
  }

  /** A day's remaining appointments, re-laid back to back from their earliest
      start; an empty list stays empty. */
  function Reflow(s: seq<Appointment>): seq<Appointment>
  {
    if s == [] then [] else Rebuild(s, EarliestStart(s))
  }

  predicate PositiveDurations(s: seq<Appointment>)
  {
    forall i | 0 <= i < |s| :: Duration(s[i]) > 0
  }

  /** The rebuild keeps the number and order of appointments, changes nothing but
      their times, gives each its reflow duration and leaves no gaps. */
  lemma {:induction false} RebuildLayout(s: seq<Appointment>, cursor: int)
    ensures var r := Rebuild(s, cursor);
      && |r| == |s|
      && (forall i | 0 <= i < |s| :: SameRecord(s[i], r[i]) && Duration(r[i]) == ReflowDuration(s[i]))
      && (|s| > 0 ==> r[0].start == cursor)
      && BackToBack(r)
  {
    if s != [] {
      var d := ReflowDuration(s[0]);
      var rest := Rebuild(s[1..], cursor + d);
      RebuildLayout(s[1..], cursor + d);
      var r := Rebuild(s, cursor);
      assert r == [s[0].(start := cursor, end := cursor + d)] + rest;
      forall i | 0 < i < |r| ensures Abuts(r, i) {
        if i > 1 {
          assert Abuts(rest, i - 1);
        }
      }
      forall i | 0 < i < |s| ensures SameRecord(s[i], r[i]) && Duration(r[i]) == ReflowDuration(s[i]) {
        assert s[i] == s[1..][i - 1] && r[i] == rest[i - 1];
      }
    }
  }

  /** The reflow of a day's list: same length, same order, only times changed;
      it starts at the earliest original start, has no gaps, keeps every
      positive duration, gives malformed records one slot, and so has only
      positive durations. */
  lemma ReflowSpec(s: seq<Appointment>)
    ensures s == [] ==> Reflow(s) == []
    ensures var r := Reflow(s);
      && |r| == |s|
      && (forall i | 0 <= i < |s| :: SameRecord(s[i], r[i]))
      && (forall i | 0 <= i < |s| :: Duration(s[i]) > 0 ==> Duration(r[i]) == Duration(s[i]))
      && (forall i | 0 <= i < |s| :: Duration(s[i]) <= 0 ==> Duration(r[i]) == SlotMs)
      && PositiveDurations(r)
      && (|s| > 0 ==> r[0].start == EarliestStart(s))
      && BackToBack(r)
  {
    if s != [] {
      RebuildLayout(s, EarliestStart(s));
    }
  }

  lemma {:induction false} RebuildKeepsLaidOut(r: seq<Appointment>, cursor: int)
    requires BackToBack(r) && PositiveDurations(r)
    requires |r| > 0 ==> r[0].start == cursor
    ensures Rebuild(r, cursor) == r
  {
    if r != [] {
      var rest := r[1..];
      assert BackToBack(rest) by {
        forall i | 0 < i < |rest| ensures Abuts(rest, i) {
          assert Abuts(r, i + 1);
        }
      }
      if |r| > 1 {
        assert Abuts(r, 1);
      }
      RebuildKeepsLaidOut(rest, r[0].end);
      assert r == [r[0]] + rest;
    }
  }

  /** Reflowing a reflowed list changes nothing. */
  lemma ReflowIdempotent(s: seq<Appointment>)
    ensures Reflow(Reflow(s)) == Reflow(s)
  {
    var r := Reflow(s);
    if s != [] {
      ReflowSpec(s);
      assert NonNegativeDurations(r);
      BackToBackIsSortedAndDisjoint(r);
      assert EarliestStart(r) == r[0].start;
      RebuildKeepsLaidOut(r, r[0].start);
    }
  }

  /** The view's reflow: the earliest start of the list, then one pass with a
      cursor that moves to the end of each rebuilt appointment. */
  method RecomputeAppointmentsForDate(apptsForDate: seq<Appointment>) returns (rebuilt: seq<Appointment>)
    ensures rebuilt == Reflow(apptsForDate)
  {
    if |apptsForDate| == 0 {
      return [];
    }
    var earliest := EarliestStart(apptsForDate);
    rebuilt := [];
    var cursor := earliest;
    for i := 0 to |apptsForDate|
      invariant rebuilt + Rebuild(apptsForDate[i..], cursor) == Rebuild(apptsForDate, earliest)
    {
      var original := apptsForDate[i];
      var dur := original.end - original.start;
      var s := cursor;
      var e := s + (if dur > 0 then dur else 20 * 60 * 1000);
      assert apptsForDate[i..][1..] == apptsForDate[i + 1..];
      assert Rebuild(apptsForDate[i..], cursor) == [original.(start := s, end := e)] + Rebuild(apptsForDate[i + 1..], e);
      rebuilt := rebuilt + [original.(start := s, end := e)];
      cursor := e;
    }
    assert apptsForDate[|apptsForDate|..] == [];
  }

  // ---------------------------------------------------------------------------
  // Cancellation

  function RemoveAt(s: seq<Appointment>, idx: int): seq<Appointment>
    requires 0 <= idx < |s|
  {
    s[..idx] + s[idx + 1..]
  }

  /** The grouping after the appointment at `idx` of day `dateKey` is cancelled:
      that day's list loses it and is reflowed; every other day is kept. */
  function Cancelled(g: Grouping, dateKey: DayKey, idx: int): Grouping
    requires dateKey in g.lists && 0 <= idx < |g.lists[dateKey]|
  {
    Grouping(g.keys, g.lists[dateKey := Reflow(RemoveAt(g.lists[dateKey], idx))])
  }

  /** A confirmed cancellation keeps the days and their order, leaves every other
      day's list as it was, and replaces the day's list by its remaining
      appointments, in order, re-laid by the reflow; the flattened timeline is
      one appointment shorter. */
  lemma CancelledSpec(g: Grouping, dateKey: DayKey, idx: int)
    requires WellFormed(g)
    requires dateKey in g.lists && 0 <= idx < |g.lists[dateKey]|
    ensures var c := Cancelled(g, dateKey, idx);
      && WellFormed(c)
      && c.keys == g.keys
      && (forall k | k in g.lists && k != dateKey :: c.lists[k] == g.lists[k])
      && var old_ := g.lists[dateKey];
      && var new_ := c.lists[dateKey];
      && |new_| == |old_| - 1
      && (forall i | 0 <= i < idx :: SameRecord(old_[i], new_[i]))
      && (forall i | idx < i < |old_| :: SameRecord(old_[i], new_[i - 1]))
      && |FlattenGrouping(c)| == |FlattenGrouping(g)| - 1
  {
    var l := g.lists[dateKey];
    CancelledDay(l, idx);
    FlattenReplaceLength(g.keys, g.lists, dateKey, Reflow(RemoveAt(l, idx)));
  }

  /** The day's list after a cancellation: one shorter, every other record kept
      in order with only its times changed. */
  lemma CancelledDay(l: seq<Appointment>, idx: int)
    requires 0 <= idx < |l|
    ensures var r := Reflow(RemoveAt(l, idx));
      && |r| == |l| - 1
      && (forall i | 0 <= i < idx :: SameRecord(l[i], r[i]))
      && (forall i | idx < i < |l| :: SameRecord(l[i], r[i - 1]))
  {
    var rest := RemoveAt(l, idx);
    ReflowSpec(rest);
    forall i | idx < i < |l| ensures rest[i - 1] == l[i] {
    }
  }

  /** The calendar view's state: its own day grouping, kept in step with the
      shared store. */
  class CalendarView {
    var local: Grouping
    const store: AppointmentStore

    constructor (store: AppointmentStore)
      ensures this.store == store && local == Grouping([], map[]) && WellFormed(local)
    {
      this.store := store;
      local := Grouping([], map[]);
    }

    /** The synchronisation effect: when the store is empty it publishes the
        view's own appointments; otherwise it regroups the store's list and
        adopts the new grouping when its set of days differs from the view's. */
    method SyncWithStore(dayOf: int -> DayKey)
      requires WellFormed(local)
      modifies this, store
      ensures WellFormed(local)
      ensures old(store.appointments) == [] ==>
        local == old(local) && store.appointments == FlattenGrouping(old(local))
      ensures old(store.appointments) != [] ==>
        && store.appointments == old(store.appointments)
        && var byDate := GroupByDay(old(store.appointments), dayOf);
        && local == if byDate.lists.Keys != old(local.lists.Keys) then byDate else old(local)
    {
      if store.appointments == [] {
        store.Commit(Flatten(local.keys, local.lists));
      } else {
        var byDate := GroupByDate(store.appointments, dayOf);
        GroupByDayWellFormed(store.appointments, dayOf);
        if byDate.lists.Keys != local.lists.Keys {
          local := byDate;
        }
      }
    }

    /** Cancels the appointment at `idx` of day `dateKey`. An index out of range
        or an unconfirmed prompt (`confirmed` is the user's answer) changes
        nothing; otherwise the day's list is rebuilt without it and the whole
        timeline is written back to the store. */
    method CancelAppointment(dateKey: DayKey, idx: int, confirmed: bool)
      requires WellFormed(local)
      modifies this, store
      ensures WellFormed(local)
      ensures var dateList := if dateKey in old(local.lists) then old(local.lists[dateKey]) else [];
        if idx < 0 || idx >= |dateList| || !confirmed then
          local == old(local) && store.appointments == old(store.appointments)
        else
          local == Cancelled(old(local), dateKey, idx) && store.appointments == FlattenGrouping(local)
    {
      var dateList := if dateKey in local.lists then local.lists[dateKey] else [];
      if idx < 0 || idx >= |dateList| {
        return;
      }
      if !confirmed {
        return;
      }
      var remaining := dateList[..idx] + dateList[idx + 1..];
      var rebuilt := RecomputeAppointmentsForDate(remaining);
      CancelledSpec(local, dateKey, idx);
      local := Grouping(local.keys, local.lists[dateKey := rebuilt]);
      store.Commit(Flatten(local.keys, local.lists));
    }
  }
}
