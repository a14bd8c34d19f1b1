/** Ordering appointments by start time, as the allocator does with the
    JavaScript array sort and a start-time comparator. That sort is stable, so
    it is modelled as an insertion sort that places each appointment after every
    earlier one with an equal or smaller start. */
module StartOrder {
  import opened Timeline

  /** Puts `a` into `s`, in front of the first appointment that starts strictly
      later than `a`. */
  function InsertByStart(a: Appointment, s: seq<Appointment>): seq<Appointment>
  {
    if s == [] then [a]
    else if a.start < s[0].start then [a] + s
    else [s[0]] + InsertByStart(a, s[1..])
  }

  /** The appointments of `s` in non-decreasing start order; appointments with
      equal starts keep their relative order. */
  function SortByStart(s: seq<Appointment>): seq<Appointment>
  {
    if s == [] then [] else InsertByStart(s[|s| - 1], SortByStart(s[..|s| - 1]))
  }

  /** Prepending `x` to a sorted list of appointments that start no earlier than
      `x` keeps it sorted. */
  lemma FirstBelowAll(x: Appointment, rest: seq<Appointment>, a: Appointment, t: seq<Appointment>)
    requires SortedByStart(rest) && SortedByStart([x] + t)
    requires x.start <= a.start
    requires multiset(rest) == multiset(t) + multiset{a}
    ensures SortedByStart([x] + rest)
  {
    forall k | 0 <= k < |rest| ensures x.start <= rest[k].start {
      assert rest[k] in multiset(rest);
      if rest[k] != a {
        assert rest[k] in multiset(t);
        var j :| 0 <= j < |t| && t[j] == rest[k];
        assert ([x] + t)[0] == x && ([x] + t)[j + 1] == t[j];
      }
    }
    var u := [x] + rest;
    forall i, j | 0 <= i < j < |u| ensures u[i].start <= u[j].start {
      if i > 0 {
        assert u[i] == rest[i - 1] && u[j] == rest[j - 1];
      } else {
        assert u[j] == rest[j - 1];
      }
    }
  }

  /** Inserting into a start-ordered list keeps it ordered and adds exactly `a`. */
  lemma {:induction false} InsertByStartSpec(a: Appointment, s: seq<Appointment>)
    requires SortedByStart(s)
    ensures |InsertByStart(a, s)| == |s| + 1
    ensures multiset(InsertByStart(a, s)) == multiset(s) + multiset{a}
    ensures SortedByStart(InsertByStart(a, s))
  {
    if s != [] && a.start >= s[0].start {
      assert s == [s[0]] + s[1..];
      InsertByStartSpec(a, s[1..]);
      FirstBelowAll(s[0], InsertByStart(a, s[1..]), a, s[1..]);
    }
  }

  /** The sort returns a start-ordered permutation of its input. */
  lemma {:induction false} SortByStartSpec(s: seq<Appointment>)
    ensures |SortByStart(s)| == |s|
    ensures multiset(SortByStart(s)) == multiset(s)
    ensures SortedByStart(SortByStart(s))
  {
    if s != [] {
      var n := |s| - 1;
      assert s == s[..n] + [s[n]];
      SortByStartSpec(s[..n]);
      InsertByStartSpec(s[n], SortByStart(s[..n]));
    }
  }

  lemma {:induction false} InsertAfterAll(a: Appointment, s: seq<Appointment>)
    requires forall i | 0 <= i < |s| :: s[i].start <= a.start
    ensures InsertByStart(a, s) == s + [a]
  {
    if s != [] {
      InsertAfterAll(a, s[1..]);
      assert s == [s[0]] + s[1..];
    }
  }

  /** Sorting a list that is already in start order leaves it as it is. */
  lemma {:induction false} SortKeepsSorted(s: seq<Appointment>)
    requires SortedByStart(s)
    ensures SortByStart(s) == s
  {
    if s != [] {
      var n := |s| - 1;
      SortKeepsSorted(s[..n]);
      InsertAfterAll(s[n], s[..n]);
      assert s[..n] + [s[n]] == s;
    }
  }

  /** The appointments of `s` that start at `t`, in the order `s` lists them. */
  function StartingAt(s: seq<Appointment>, t: int): seq<Appointment>
  {
    if s == [] then [] else (if s[0].start == t then [s[0]] else []) + StartingAt(s[1..], t)
  }

  lemma {:induction false} StartingAtAppend(x: seq<Appointment>, y: seq<Appointment>, t: int)
    ensures StartingAt(x + y, t) == StartingAt(x, t) + StartingAt(y, t)
  {
    if x == [] {
      assert x + y == y;
    } else {
      var head := if x[0].start == t then [x[0]] else [];
      assert StartingAt(x + y, t) == head + StartingAt(x[1..] + y, t) by {
        assert (x + y)[0] == x[0] && (x + y)[1..] == x[1..] + y;
      }
      StartingAtAppend(x[1..], y, t);
      assert head + (StartingAt(x[1..], t) + StartingAt(y, t))
          == (head + StartingAt(x[1..], t)) + StartingAt(y, t);
    }
  }

  lemma {:induction false} NoneStartingAt(s: seq<Appointment>, t: int)
    requires forall i | 0 <= i < |s| :: s[i].start > t
    ensures StartingAt(s, t) == []
  {
    if s != [] {
      NoneStartingAt(s[1..], t);
    }
  }

  /** Inserting `a` into a start-ordered list puts it behind every appointment
      that starts at the same time. */
  lemma {:induction false} InsertByStartStable(a: Appointment, s: seq<Appointment>, t: int)
    requires SortedByStart(s)
    ensures StartingAt(InsertByStart(a, s), t) == StartingAt(s, t) + (if a.start == t then [a] else [])
  {
    if s == [] {
      assert [a][1..] == [];
    } else if a.start < s[0].start {
      InsertInFrontStable(a, s, t);
    } else {
      var r := s[1..];
      SortedTail(s);
      var head := if s[0].start == t then [s[0]] else [];
      var tail := if a.start == t then [a] else [];
      var u := [s[0]] + InsertByStart(a, r);
      assert InsertByStart(a, s) == u;
      assert StartingAt(u, t) == head + StartingAt(InsertByStart(a, r), t) by {
        assert u[0] == s[0] && u[1..] == InsertByStart(a, r);
      }
      InsertByStartStable(a, r, t);
      assert head + (StartingAt(r, t) + tail) == (head + StartingAt(r, t)) + tail;
    }
  }

  lemma InsertInFrontStable(a: Appointment, s: seq<Appointment>, t: int)
    requires SortedByStart(s) && s != [] && a.start < s[0].start
    ensures StartingAt([a] + s, t) == StartingAt(s, t) + (if a.start == t then [a] else [])
  {
    assert ([a] + s)[0] == a && ([a] + s)[1..] == s;
    if a.start == t {
      forall i | 0 <= i < |s| ensures s[i].start > t {
        if i > 0 {
          assert s[0].start <= s[i].start;
        }
      }
      NoneStartingAt(s, t);
    }
  }

  lemma SortedTail(s: seq<Appointment>)
    requires SortedByStart(s) && s != []
    ensures SortedByStart(s[1..])
  {
    var r := s[1..];
    forall i, j | 0 <= i < j < |r| ensures r[i].start <= r[j].start {
      assert r[i] == s[i + 1] && r[j] == s[j + 1];
    }
  }

  /** The sort is stable: for every start time, the appointments starting then
      come out in the order they went in. */
  lemma {:induction false} EqualStartsKeepOrder(s: seq<Appointment>, t: int)
    ensures StartingAt(SortByStart(s), t) == StartingAt(s, t)
  {
    if s != [] {
      var n := |s| - 1;
      var p, x := s[..n], s[n];
      var tail := if x.start == t then [x] else [];
      assert StartingAt(SortByStart(p), t) == StartingAt(p, t) by {
        EqualStartsKeepOrder(p, t);
      }
      assert StartingAt(InsertByStart(x, SortByStart(p)), t) == StartingAt(SortByStart(p), t) + tail by {
        assert SortedByStart(SortByStart(p)) by {
          SortByStartSpec(p);
        }
        InsertByStartStable(x, SortByStart(p), t);
      }
      assert StartingAt(s, t) == StartingAt(p, t) + tail by {
        assert s == p + [x];
        StartingAtAppend(p, [x], t);
        assert [x][1..] == [];
      }
    }
  }
  /** Every appointment of the insertion result is `a` or one of `s`. */
  lemma {:induction false} InsertElements(a: Appointment, s: seq<Appointment>)
    ensures forall x | x in InsertByStart(a, s) :: x == a || x in s
  {
    if s != [] && a.start >= s[0].start {
      InsertElements(a, s[1..]);
      assert forall x | x in s[1..] :: x in s;
    }
  }

  /** Inserting an appointment that overlaps none of a disjoint list keeps the
      list disjoint. */
  lemma {:induction false} InsertKeepsDisjoint(a: Appointment, u: seq<Appointment>)
    requires PairwiseDisjoint(u)
    requires forall j | 0 <= j < |u| :: !Overlap(a, u[j])
    ensures PairwiseDisjoint(InsertByStart(a, u))
  {
    if u != [] && a.start < u[0].start {
      var c := [a] + u;
      forall i, j | 0 <= i < j < |c| ensures !Overlap(c[i], c[j]) {
        assert c[j] == u[j - 1];
        if i > 0 {
          assert c[i] == u[i - 1];
        }
      }
    } else if u != [] {
      var r := u[1..];
      assert PairwiseDisjoint(r) by {
        forall i, j | 0 <= i < j < |r| ensures !Overlap(r[i], r[j]) {
          assert r[i] == u[i + 1] && r[j] == u[j + 1];
        }
      }
      forall j | 0 <= j < |r| ensures !Overlap(a, r[j]) {
        assert r[j] == u[j + 1];
      }
      InsertKeepsDisjoint(a, r);
      var t := InsertByStart(a, r);
      InsertElements(a, r);
      var c := [u[0]] + t;
      forall i, j | 0 <= i < j < |c| ensures !Overlap(c[i], c[j]) {
        if i == 0 {
          assert c[j] == t[j - 1] && c[j] in t;
          if c[j] != a {
            var k :| 0 <= k < |r| && r[k] == c[j];
            assert r[k] == u[k + 1];
          }
        } else {
          assert c[i] == t[i - 1] && c[j] == t[j - 1];
        }
      }
    }
  }

  /** Every appointment of the sorted list is one of the input. */
  lemma {:induction false} SortElements(s: seq<Appointment>)
    ensures forall x | x in SortByStart(s) :: x in s
  {
    if s != [] {
      var n := |s| - 1;
      SortElements(s[..n]);
      InsertElements(s[n], SortByStart(s[..n]));
      assert forall x | x in s[..n] :: x in s;
    }
  }

  /** Sorting a disjoint list keeps it disjoint. */
  lemma {:induction false} SortKeepsDisjoint(s: seq<Appointment>)
    requires PairwiseDisjoint(s)
    ensures PairwiseDisjoint(SortByStart(s))
  {
    if s != [] {
      var n := |s| - 1;
      var p := s[..n];
      assert PairwiseDisjoint(p) by {
        forall i, j | 0 <= i < j < |p| ensures !Overlap(p[i], p[j]) {
          assert p[i] == s[i] && p[j] == s[j];
        }
      }
      SortKeepsDisjoint(p);
      var u := SortByStart(p);
      SortElements(p);
      forall j | 0 <= j < |u| ensures !Overlap(s[n], u[j]) {
        assert u[j] in u;
        var k :| 0 <= k < |p| && p[k] == u[j];
        assert p[k] == s[k];
      }
      InsertKeepsDisjoint(s[n], u);
    }
  }
}
