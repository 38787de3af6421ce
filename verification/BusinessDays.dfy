/** Deadlines in business days. Instants are seconds in the time zone of the clock. */
module BusinessDays {
  import opened Common

  const DAY := 86400

  /** Day numbers start on Thursday, 1 January 1970; 0 is Monday. */
  function Weekday(t: int): (w: int)
    ensures 0 <= w < 7
  {
    (t / DAY + 3) % 7
  }

  predicate IsWorkday(t: int) {
    Weekday(t) < 5
  }

  /** The working days in the `k` days after `start`. */
  function WorkdaysIn(start: int, k: nat): nat {
    if k == 0 then 0 else WorkdaysIn(start, k - 1) + if IsWorkday(start + k * DAY) then 1 else 0
  }

  /** The weekday, with Saturday and Sunday counted from Friday. */
  function FromFriday(w: int): int {
    if w > 4 then 4 else w
  }

  /** Days until the `n`th working day, in closed form. */
  function DaysAhead(w: int, n: nat): int {
    n + 2 * ((FromFriday(w) + n) / 5) - (w - FromFriday(w))
  }

  function Deadline(start: int, n: nat): int {
    start + DaysAhead(Weekday(start), n) * DAY
  }

  function Max1(days: int): nat {
    if days < 1 then 1 else days
  }

  /** Weekdays count from Monday: the first day is a Thursday, and each day has the next one's. */
  lemma WeekdayFollowsTheCalendar(t: int)
    ensures 0 <= t < DAY ==> Weekday(t) == 3
    ensures Weekday(t + DAY) == if Weekday(t) == 6 then 0 else Weekday(t) + 1
    ensures Weekday(t - t % DAY) == Weekday(t)
  {
    assert (t + DAY) / DAY == t / DAY + 1;
    assert (t - t % DAY) / DAY == t / DAY;
  }

  // ----- counting working days -----

  /** The working days among the day numbers 1 to m of a calendar whose day 0 is a Monday. */
  function WorkdaysUpTo(m: nat): nat {
    5 * (m / 7) + (if m % 7 < 4 then m % 7 else 4)
  }

  lemma WeekdayAhead(t: int, k: nat)
    ensures Weekday(t + k * DAY) == (Weekday(t) + k) % 7
  {
    assert (t + k * DAY) / DAY == t / DAY + k;
  }

  lemma OneMoreDay(m: nat)
    ensures WorkdaysUpTo(m + 1) == WorkdaysUpTo(m) + if (m + 1) % 7 < 5 then 1 else 0
  {
    assert m == 7 * (m / 7) + m % 7;
  }

  lemma {:induction false} WorkdaysInClosedForm(start: int, k: nat)
    ensures WorkdaysIn(start, k) == WorkdaysUpTo(Weekday(start) + k) - WorkdaysUpTo(Weekday(start))
  {
    if k > 0 {
      WorkdaysInClosedForm(start, k - 1);
      WeekdayAhead(start, k);
      OneMoreDay(Weekday(start) + k - 1);
      hide Weekday, WorkdaysUpTo;
    }
  }

  lemma DivMod7(q: int, r: int)
    requires 0 <= r < 7
    ensures (7 * q + r) / 7 == q && (7 * q + r) % 7 == r
  {
  }

  /** The closed form is the day, counted from the Monday before, of the mth working day. */
  lemma DaysAheadInWeeks(w: int, n: nat)
    requires 0 <= w < 7
    ensures var m := FromFriday(w) + n; w + DaysAhead(w, n) == 7 * (m / 5) + m % 5
    ensures n > 0 ==> DaysAhead(w, n) > 0
  {
    var m := FromFriday(w) + n;
    assert m == 5 * (m / 5) + m % 5;
  }

  lemma InWeeks(q: nat, r: nat)
    requires r < 5
    ensures WorkdaysUpTo(7 * q + r) == 5 * q + r
  {
    DivMod7(q, r);
  }

  lemma FirstWeek(w: nat)
    requires w < 7
    ensures WorkdaysUpTo(w) == FromFriday(w)
  {
  }

  /** The closed form lands on a working day, with exactly n working days after the start. */
  lemma DeadlineIsNthWorkday(start: int, n: nat)
    requires n > 0
    ensures DaysAhead(Weekday(start), n) > 0
    ensures IsWorkday(Deadline(start, n))
    ensures WorkdaysIn(start, DaysAhead(Weekday(start), n)) == n
  {
    var w := Weekday(start);
    var k := DaysAhead(w, n);
    var m := FromFriday(w) + n;
    DaysAheadInWeeks(w, n);
    DivMod7(m / 5, m % 5);
    WorkdaysInClosedForm(start, k);
    WeekdayAhead(start, k);
    hide Weekday, WorkdaysIn, DaysAhead;
    InWeeks(m / 5, m % 5);
    FirstWeek(w);
    hide WorkdaysUpTo;
  }

  lemma {:induction false} WorkdaysGrow(start: int, j: nat, k: nat)
    requires j <= k
    ensures WorkdaysIn(start, j) <= WorkdaysIn(start, k)
  {
    if j < k {
      WorkdaysGrow(start, j, k - 1);
    }
  }

  /** No earlier working day will do. */
  lemma DeadlineIsFirst(start: int, n: nat, k: nat)
    requires n > 0 && k < DaysAhead(Weekday(start), n)
    ensures WorkdaysIn(start, k) < n
  {
    var d := DaysAhead(Weekday(start), n);
    DeadlineIsNthWorkday(start, n);
    assert WorkdaysIn(start, d) == WorkdaysIn(start, d - 1) + 1;
    WorkdaysGrow(start, k, d - 1);
  }

  // ----- the loop -----

  method AddBusinessDays(start: int, days: Option<int>) returns (r: Option<int>)
    ensures r == if days == None then None else Some(Deadline(start, if days.value < 1 then 1 else days.value))
  {
    if days == None {
      return None;
    }
    var n := Max1(days.value);
    var cursor := start;
    var remaining := n;
    ghost var k := 0;
    ghost var d := DaysAhead(Weekday(start), n);
    DeadlineIsNthWorkday(start, n);
    while remaining != 0
      invariant 0 <= k <= d && cursor == start + k * DAY
      invariant 0 <= remaining && remaining == n - WorkdaysIn(start, k)
      decreases d - k
    {
      if k == d {
        assert false;
      }
      cursor := cursor + DAY;
      k := k + 1;
      WorkdaysGrow(start, k, d);
      if Weekday(cursor) < 5 {
        remaining := remaining - 1;
      }
    }
    if k < d {
      DeadlineIsFirst(start, n, k);
    }
    r := Some(cursor);
  }

  // ----- order -----

  /** The working day a start counts from: itself, or the Friday before. */
  function Anchor(start: int): int {
    start / DAY - (Weekday(start) - FromFriday(Weekday(start)))
  }

  lemma DeadlineFromAnchor(start: int, n: nat)
    ensures Deadline(start, n) == (Anchor(start) + DaysAhead((Anchor(start) + 3) % 7, n)) * DAY + start % DAY
    ensures (Anchor(start) + 3) % 7 < 5
  {
    assert start == start / DAY * DAY + start % DAY;
    assert (Anchor(start) + 3) % 7 == FromFriday(Weekday(start));
  }

  lemma LaterInWeeks(p: int, v: int, q: int, u: int, n: nat)
    requires 0 <= v < 5 && 0 <= u < 5 && 7 * p + v < 7 * q + u
    ensures 7 * p + v + DaysAhead(v, n) < 7 * q + u + DaysAhead(u, n)
  {
    var s, t := (v + n) / 5, (u + n) / 5;
    assert 5 * s <= v + n < 5 * s + 5 && 5 * t <= u + n < 5 * t + 5;
    if p == q {
      assert s <= t;
    } else {
      assert s <= t + 1;
    }
  }

  /** On working days, later starts have later deadlines. */
  lemma LaterAnchorLaterDay(a: int, b: int, n: nat)
    requires a < b && (a + 3) % 7 < 5 && (b + 3) % 7 < 5
    ensures a + DaysAhead((a + 3) % 7, n) < b + DaysAhead((b + 3) % 7, n)
  {
    var v, u := (a + 3) % 7, (b + 3) % 7;
    var p, q := (a + 3) / 7, (b + 3) / 7;
    assert a + 3 == 7 * p + v && b + 3 == 7 * q + u;
    LaterInWeeks(p, v, q, u, n);
  }

  lemma AnchorsGrow(start: int, later: int)
    requires start <= later
    ensures Anchor(start) <= Anchor(later)
  {
    assert start / DAY <= later / DAY;
  }

  /** A later start has a later deadline, except that two starts that count from the same
      Friday keep the order of their times of day. */
  lemma MonotoneInStartExactly(start: int, later: int, n: nat)
    requires start <= later
    ensures Deadline(start, n) <= Deadline(later, n) <==>
              !(Anchor(start) == Anchor(later) && start % DAY > later % DAY)
  {
    AnchorsGrow(start, later);
    DeadlineFromAnchor(start, n);
    DeadlineFromAnchor(later, n);
    var x := Anchor(start) + DaysAhead((Anchor(start) + 3) % 7, n);
    var y := Anchor(later) + DaysAhead((Anchor(later) + 3) % 7, n);
    if Anchor(start) < Anchor(later) {
      LaterAnchorLaterDay(Anchor(start), Anchor(later), n);
      assert x * DAY + DAY <= y * DAY;
    }
  }

  /** From a working day, the deadline is monotone without exception. */
  lemma MonotoneFromWorkdays(start: int, later: int, n: nat)
    requires start <= later && IsWorkday(start) && IsWorkday(later)
    ensures Deadline(start, n) <= Deadline(later, n)
  {
    MonotoneInStartExactly(start, later, n);
    if Anchor(start) == Anchor(later) {
      assert start / DAY == later / DAY;
    }
  }

  /** Friday 23:00 and the Saturday after, 01:00: the later start is due earlier. */
  lemma WeekendBreaksMonotonicity()
    ensures var friday := 1 * DAY + 23 * 3600;
            var saturday := 2 * DAY + 3600;
            friday < saturday && Deadline(friday, 1) > Deadline(saturday, 1)
  {
    var friday := 1 * DAY + 23 * 3600;
    var saturday := 2 * DAY + 3600;
    assert friday / DAY == 1 && friday % DAY == 23 * 3600;
    assert saturday / DAY == 2 && saturday % DAY == 3600;
    MonotoneInStartExactly(friday, saturday, 1);
    hide Deadline;
  }

  /** More days give a strictly later deadline. */
  lemma MonotoneInDays(start: int, n: nat, more: nat)
    requires n < more
    ensures Deadline(start, n) < Deadline(start, more)
  {
    var v := FromFriday(Weekday(start));
    assert (v + n) / 5 <= (v + more) / 5;
  }
}
