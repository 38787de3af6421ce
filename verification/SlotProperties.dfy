/** What the free-slot finder returns, stated without its loops. */
module SlotProperties {
  import opened StableSort
  import opened FreeSlots

  // ----- the grid -----

  lemma AtLeastOnce(k: int, m: int)
    requires k >= 1 && m > 0
    ensures k * m >= m
  {
    assert k * m == (k - 1) * m + m;
  }

  /** Quotient and remainder are unique. */
  lemma RemainderIs(a: int, q: int, m: int, rest: int)
    requires m > 0 && 0 <= rest < m && a == q * m + rest
    ensures a % m == rest
  {
    var q' := a / m;
    assert (q - q') * m == a % m - rest;
    assert (q' - q) * m == -((q - q') * m);
    if q > q' {
      AtLeastOnce(q - q', m);
    } else if q < q' {
      AtLeastOnce(q' - q, m);
    }
  }

  lemma ModStep(x: int, m: int)
    requires m > 0
    ensures (x - m) % m == x % m
    ensures 0 <= x < m ==> x % m == x
  {
    assert x - m == (x / m - 1) * m + x % m;
    RemainderIs(x - m, x / m - 1, m, x % m);
    if 0 <= x < m {
      RemainderIs(x, 0, m, x);
    }
  }

  /** The candidates of a day are the times `cursor` plus whole steps that end in time. */
  lemma {:induction false} DayGridMembers(r: SlotRequest, cursor: int, limit: int, s: int)
    requires ValidRequest(r)
    ensures s in DayGrid(r, cursor, limit)
       <==> cursor <= s && (s - cursor) % (r.step * MINUTE) == 0 && s + r.duration * MINUTE <= limit
    decreases limit - cursor
  {
    if cursor + r.duration * MINUTE <= limit {
      DayGridMembers(r, cursor + r.step * MINUTE, limit, s);
      ModStep(s - cursor, r.step * MINUTE);
    }
  }

  lemma {:induction false} DayGridIncreases(r: SlotRequest, cursor: int, limit: int)
    requires ValidRequest(r)
    ensures Increasing(DayGrid(r, cursor, limit))
    decreases limit - cursor
  {
    if cursor + r.duration * MINUTE <= limit {
      var next := cursor + r.step * MINUTE;
      DayGridIncreases(r, next, limit);
      forall i | 0 <= i < |DayGrid(r, next, limit)|
        ensures cursor < DayGrid(r, next, limit)[i]
      {
        DayGridMembers(r, next, limit, DayGrid(r, next, limit)[i]);
      }
    }
  }

  ghost predicate Increasing(xs: seq<int>) {
    forall i, j :: 0 <= i < j < |xs| ==> xs[i] < xs[j]
  }

  /** `k` minutes after this minute, counted on, comes a multiple of the step. */
  predicate Aligned(minute: int, k: int, step: int)
    requires step > 0
  {
    (minute + k) % step == 0
  }

  /** The distance from a minute to the next multiple of the step. */
  function ToNext(minute: int, step: int): int
    requires step > 0
  {
    if minute % step == 0 then 0 else step - minute % step
  }

  lemma AlignedNext(minute: int, step: int)
    requires step > 0
    ensures 0 <= ToNext(minute, step) < step && Aligned(minute, ToNext(minute, step), step)
  {
    if minute % step != 0 {
      assert minute == minute / step * step + minute % step;
      RemainderIs(minute + ToNext(minute, step), minute / step + 1, step, 0);
    }
  }

  lemma NotAlignedBefore(minute: int, step: int, j: int)
    requires step > 0 && 0 <= j < ToNext(minute, step)
    ensures !Aligned(minute, j, step)
  {
    assert minute == minute / step * step + minute % step;
    RemainderIs(minute + j, minute / step, step, minute % step + j);
  }

  /** Rounding drops the seconds and goes on to the first minute, counted on from the minute of
      the hour, that is a multiple of the step; no earlier minute is. */
  lemma RoundingIsNextAligned(r: SlotRequest, t: int)
    requires ValidRequest(r)
    ensures var minute, base := t / MINUTE % 60, t - t % MINUTE;
            var k := (RoundUp(r, t) - base) / MINUTE;
            && RoundUp(r, t) == base + k * MINUTE && 0 <= k < r.step
            && Aligned(minute, k, r.step)
            && forall j :: 0 <= j < k ==> !Aligned(minute, j, r.step)
  {
    var minute := t / MINUTE % 60;
    var k := ToNext(minute, r.step);
    AlignedNext(minute, r.step);
    RoundUpAdds(r, t);
    forall j | 0 <= j < k
      ensures !Aligned(minute, j, r.step)
    {
      NotAlignedBefore(minute, r.step, j);
    }
    hide RoundUp, ToNext, Aligned;
    RemainderIs(k * MINUTE, k, MINUTE, 0);
  }

  lemma RoundUpAdds(r: SlotRequest, t: int)
    requires ValidRequest(r)
    ensures RoundUp(r, t) == t - t % MINUTE + ToNext(t / MINUTE % 60, r.step) * MINUTE
  {
    RoundMinutes(t / MINUTE % 60, r.step);
  }

  /** Rounding moves back, by less than a minute, exactly when the minute is already aligned
      and seconds are not zero. */
  lemma Rounding(r: SlotRequest, t: int)
    requires ValidRequest(r)
    ensures RoundUp(r, t) >= t - t % MINUTE
    ensures RoundUp(r, t) < t <==> t / MINUTE % 60 % r.step == 0 && t % MINUTE != 0
    ensures RoundUp(r, t) < t ==> RoundUp(r, t) == t - t % MINUTE
  {
    RoundMinutes(t / MINUTE % 60, r.step);
  }

  lemma RoundMinutes(minute: int, step: int)
    requires step > 0
    ensures 0 <= minute % step < step
    ensures (step - minute % step) % step == if minute % step == 0 then 0 else step - minute % step
  {
    ModStep(step - minute % step, step);
  }

  lemma WholeMinutes(n: int, t: int)
    requires n * MINUTE <= t
    ensures n * MINUTE <= t - t % MINUTE
  {
  }

  lemma FirstStartInWorkday(r: SlotRequest, day: int)
    requires ValidRequest(r)
    ensures DayStart(r, day) <= FirstStart(r, day)
  {
    var t := Max(DayStart(r, day), LocalStart(r));
    Rounding(r, t);
    hide RoundUp;
    WholeMinutes(day * 1440 + r.workStart, t);
  }

  /** A candidate of a day lies inside that day. */
  lemma CandidateDay(r: SlotRequest, day: int, s: int)
    requires ValidRequest(r) && s in DayCandidates(r, day)
    ensures DayOf(s) == day && DayStart(r, day) <= s && s + r.duration * MINUTE <= Limit(r, day)
  {
    DayGridMembers(r, FirstStart(r, day), Limit(r, day), s);
    FirstStartInWorkday(r, day);
    assert day * DAY <= s < day * DAY + DAY;
  }

  lemma {:induction false} GridMembers(r: SlotRequest, first: int, s: int)
    requires ValidRequest(r)
    ensures s in Grid(r, first) <==> first <= DayOf(s) <= DayOf(LocalEnd(r)) && s in DayCandidates(r, DayOf(s))
    decreases DayOf(LocalEnd(r)) - first
  {
    hide DayCandidates, LocalEnd, DayOf;
    if first <= DayOf(LocalEnd(r)) {
      GridMembers(r, first + 1, s);
      if s in DayCandidates(r, first) {
        CandidateDay(r, first, s);
      }
    }
  }

  lemma JoinIncreases(xs: seq<int>, ys: seq<int>)
    requires Increasing(xs) && Increasing(ys)
    requires forall i, j :: 0 <= i < |xs| && 0 <= j < |ys| ==> xs[i] < ys[j]
    ensures Increasing(xs + ys)
  {
  }

  lemma {:induction false} GridIncreases(r: SlotRequest, first: int)
    requires ValidRequest(r)
    ensures Increasing(Grid(r, first))
    decreases DayOf(LocalEnd(r)) - first
  {
    if first <= DayOf(LocalEnd(r)) {
      var today, later := DayCandidates(r, first), Grid(r, first + 1);
      DayGridIncreases(r, FirstStart(r, first), Limit(r, first));
      GridIncreases(r, first + 1);
      forall i, j | 0 <= i < |today| && 0 <= j < |later|
        ensures today[i] < later[j]
      {
        CandidateDay(r, first, today[i]);
        assert later[j] in later;
        GridMembers(r, first + 1, later[j]);
        hide DayGrid, Grid, DayCandidates, FirstStart, Limit;
      }
      JoinIncreases(today, later);
      hide Increasing, DayGrid;
    }
  }

  lemma {:induction false} FilterMembers(r: SlotRequest, busy: seq<Interval>, starts: seq<int>, s: int)
    ensures s in Filter(r, busy, starts) <==> s in starts && IsFree(r, busy, s)
  {
    if starts != [] {
      FilterMembers(r, busy, starts[1..], s);
    }
  }

  lemma {:induction false} FilterKeepsOrder(r: SlotRequest, busy: seq<Interval>, starts: seq<int>)
    requires Increasing(starts)
    ensures Increasing(Filter(r, busy, starts))
  {
    if starts != [] {
      FilterKeepsOrder(r, busy, starts[1..]);
      forall i | 0 <= i < |Filter(r, busy, starts[1..])|
        ensures starts[0] < Filter(r, busy, starts[1..])[i]
      {
        FilterMembers(r, busy, starts[1..], Filter(r, busy, starts[1..])[i]);
      }
    }
  }

  // ----- the busy intervals -----

  /** The slot keeps the buffer from a busy interval as the calendar returned it. */
  predicate KeepsBuffer(r: SlotRequest, s: int, raw: Interval) {
    || s - r.offset >= raw.end + r.buffer * MINUTE
    || s + r.duration * MINUTE - r.offset <= raw.start - r.buffer * MINUTE
  }

  ghost predicate KeepsAllBuffers(r: SlotRequest, calendars: seq<seq<Interval>>, s: int) {
    forall c, i :: 0 <= c < |calendars| && 0 <= i < |calendars[c]| ==> KeepsBuffer(r, s, calendars[c][i])
  }

  lemma {:induction false} RawHolds(calendars: seq<seq<Interval>>, x: Interval)
    ensures x in Raw(calendars) <==> exists c :: 0 <= c < |calendars| && x in calendars[c]
  {
    if calendars != [] {
      var before := calendars[..|calendars| - 1];
      RawHolds(before, x);
      if c :| 0 <= c < |before| && x in before[c] {
        assert x in calendars[c];
      }
      if c :| 0 <= c < |calendars| && x in calendars[c] {
        assert c < |before| ==> x in before[c];
      }
    }
  }

  lemma FreeMeansBuffered(r: SlotRequest, calendars: seq<seq<Interval>>, s: int)
    ensures IsFree(r, Busy(r, calendars), s) <==> KeepsAllBuffers(r, calendars, s)
  {
    var raw := Raw(calendars);
    var padded := PadAll(raw, r.buffer);
    var busy := Busy(r, calendars);
    if IsFree(r, busy, s) {
      forall c, j | 0 <= c < |calendars| && 0 <= j < |calendars[c]|
        ensures KeepsBuffer(r, s, calendars[c][j])
      {
        RawHolds(calendars, calendars[c][j]);
        var i :| 0 <= i < |raw| && raw[i] == calendars[c][j];
        assert padded[i] in padded;
        SortByKeepsElements(BusyKey, padded, padded[i]);
        assert !Clashes(r, s, padded[i]);
      }
    }
    if KeepsAllBuffers(r, calendars, s) {
      forall i | 0 <= i < |busy|
        ensures !Clashes(r, s, busy[i])
      {
        assert busy[i] in busy;
        SortByKeepsElements(BusyKey, padded, busy[i]);
        var k :| 0 <= k < |padded| && padded[k] == busy[i];
        RawHolds(calendars, raw[k]);
        var c :| 0 <= c < |calendars| && raw[k] in calendars[c];
        var j :| 0 <= j < |calendars[c]| && calendars[c][j] == raw[k];
        assert KeepsBuffer(r, s, raw[k]);
      }
    }
  }

  // ----- the main results -----

  // ----- the grid without the rounding -----

  lemma SameDistance(q: int, step: int)
    ensures q * (step * MINUTE) == q * step * MINUTE
  {
  }

  lemma WholeMinutesFrom(n: int, a: int)
    requires a == n * MINUTE
    ensures a % MINUTE == 0 && a / MINUTE == n
  {
    RemainderIs(a, n, MINUTE, 0);
  }

  lemma StepsAreAligned(minute: int, k: int, q: int, step: int)
    requires step > 0 && Aligned(minute, k, step)
    ensures Aligned(minute, k + q * step, step)
  {
    var b := (minute + k) / step;
    assert minute + k + q * step == (b + q) * step;
    RemainderIs(minute + k + q * step, b + q, step, 0);
  }

  lemma AlignedDiffer(minute: int, k: int, n: int, step: int)
    requires step > 0 && Aligned(minute, k, step) && Aligned(minute, n, step)
    ensures n - k == ((minute + n) / step - (minute + k) / step) * step
  {
  }

  /** `s` comes a whole number of steps after `first`. */
  predicate OnSteps(first: int, step: int, s: int)
    requires step > 0
  {
    first <= s && (s - first) % (step * MINUTE) == 0
  }

  /** `s` is a whole number of minutes after `base`, where the count that is `minute` at `base`
      has come to a multiple of the step. */
  predicate AlignedFrom(base: int, minute: int, step: int, s: int)
    requires step > 0
  {
    base <= s && (s - base) % MINUTE == 0 && Aligned(minute, (s - base) / MINUTE, step)
  }

  /** Whole steps after the first aligned minute are the aligned minutes not before `base`. */
  lemma GridIsAligned(base: int, minute: int, k: int, step: int, s: int)
    requires step > 0 && k >= 0 && Aligned(minute, k, step)
    requires forall j :: 0 <= j < k ==> !Aligned(minute, j, step)
    ensures OnSteps(base + k * MINUTE, step, s) <==> AlignedFrom(base, minute, step, s)
  {
    hide Aligned, OnSteps, AlignedFrom;
    if OnSteps(base + k * MINUTE, step, s) {
      StepsToMinutes(base, minute, k, step, s);
    }
    if AlignedFrom(base, minute, step, s) {
      MinutesToSteps(base, minute, k, step, s);
    }
  }

  lemma StepsToMinutes(base: int, minute: int, k: int, step: int, s: int)
    requires step > 0 && k >= 0 && Aligned(minute, k, step) && OnSteps(base + k * MINUTE, step, s)
    ensures AlignedFrom(base, minute, step, s)
  {
    var q := (s - (base + k * MINUTE)) / (step * MINUTE);
    assert s - base == k * MINUTE + q * (step * MINUTE);
    SameDistance(q, step);
    WholeMinutesFrom(k + q * step, s - base);
    StepsAreAligned(minute, k, q, step);
  }

  lemma MinutesToSteps(base: int, minute: int, k: int, step: int, s: int)
    requires step > 0 && k >= 0 && Aligned(minute, k, step)
    requires forall j :: 0 <= j < k ==> !Aligned(minute, j, step)
    requires AlignedFrom(base, minute, step, s)
    ensures OnSteps(base + k * MINUTE, step, s)
  {
    var n := (s - base) / MINUTE;
    assert n >= k;
    var q := (minute + n) / step - (minute + k) / step;
    AlignedDiffer(minute, k, n, step);
    assert s - (base + k * MINUTE) == q * step * MINUTE;
    SameDistance(q, step);
    RemainderIs(s - (base + k * MINUTE), q, step * MINUTE, 0);
  }

  // ----- the main results -----

  /** A start that the finder may offer. From the later of the workday's and the window's
      start, with the seconds dropped, minutes are counted on from the minute of the hour;
      starts are the minutes whose count is a multiple of the step. They lie on an allowed
      weekday not before the window's first day, and the slot ends by the end of the workday
      and of the window. */
  predicate Candidate(r: SlotRequest, s: int)
    requires ValidRequest(r)
  {
    var day, windowStart := s / DAY, r.timeMin + r.offset;
    var workdayStart := day * DAY + r.workStart * MINUTE;
    var begin := if windowStart < workdayStart then workdayStart else windowStart;
    && windowStart / DAY <= day
    && Weekday(day) in r.weekdays
    && AlignedFrom(begin - begin % MINUTE, begin / MINUTE % 60, r.step, s)
    && s + r.duration * MINUTE <= day * DAY + r.workEnd * MINUTE
    && s + r.duration * MINUTE <= r.timeMax + r.offset
  }

  /** Weekdays count from Monday; day 0, 1 January 1970, is a Thursday. */
  lemma WeekdayFollowsTheCalendar(day: int)
    ensures Weekday(0) == 3 && 0 <= Weekday(day) <= 6
    ensures Weekday(day + 1) == if Weekday(day) == 6 then 0 else Weekday(day) + 1
  {
  }

  /** The same, counted in steps from the first start of the day. */
  predicate OnGrid(r: SlotRequest, s: int)
    requires ValidRequest(r)
  {
    var day := DayOf(s);
    && DayOf(LocalStart(r)) <= day
    && Weekday(day) in r.weekdays
    && OnSteps(FirstStart(r, day), r.step, s)
    && s + r.duration * MINUTE <= DayEnd(r, day)
    && s + r.duration * MINUTE <= LocalEnd(r)
  }

  lemma CandidatesAreOnGrid(r: SlotRequest, s: int)
    requires ValidRequest(r)
    ensures Candidate(r, s) <==> OnGrid(r, s)
  {
    var begin := Max(DayStart(r, DayOf(s)), LocalStart(r));
    var base := begin - begin % MINUTE;
    RoundingIsNextAligned(r, begin);
    var k := (RoundUp(r, begin) - base) / MINUTE;
    assert FirstStart(r, DayOf(s)) == base + k * MINUTE;
    hide RoundUp, FirstStart, Weekday, OnSteps, AlignedFrom, Aligned;
    GridIsAligned(base, begin / MINUTE % 60, k, r.step, s);
  }

  lemma FreeStartsOnGrid(r: SlotRequest, calendars: seq<seq<Interval>>, s: int)
    requires ValidRequest(r)
    ensures s in FreeStarts(r, calendars) <==> OnGrid(r, s) && KeepsAllBuffers(r, calendars, s)
    ensures Increasing(FreeStarts(r, calendars))
  {
    var first := DayOf(LocalStart(r));
    FilterMembers(r, Busy(r, calendars), Grid(r, first), s);
    FreeMeansBuffered(r, calendars, s);
    GridOnGrid(r, s);
    GridIncreases(r, first);
    FilterKeepsOrder(r, Busy(r, calendars), Grid(r, first));
    hide Grid, Filter, Busy, IsFree, KeepsAllBuffers, OnGrid, LocalStart, DayOf;
  }

  lemma GridOnGrid(r: SlotRequest, s: int)
    requires ValidRequest(r)
    ensures s in Grid(r, DayOf(LocalStart(r))) <==> OnGrid(r, s)
  {
    GridMembers(r, DayOf(LocalStart(r)), s);
    DayGridMembers(r, FirstStart(r, DayOf(s)), Limit(r, DayOf(s)), s);
    hide Grid, DayGrid, FirstStart, LocalStart, DayEnd, Weekday;
    DayEndBounds(r, s);
  }

  lemma DayEndBounds(r: SlotRequest, s: int)
    requires ValidRequest(r)
    ensures s + r.duration * MINUTE <= LocalEnd(r) ==> DayOf(s) <= DayOf(LocalEnd(r))
  {
  }

  /** The free starts are exactly the candidates that keep the buffer from every raw busy
      interval, in strictly increasing order. */
  lemma FreeStartsAreExact(r: SlotRequest, calendars: seq<seq<Interval>>, s: int)
    requires ValidRequest(r)
    ensures s in FreeStarts(r, calendars) <==> Candidate(r, s) && KeepsAllBuffers(r, calendars, s)
    ensures Increasing(FreeStarts(r, calendars))
  {
    FreeStartsOnGrid(r, calendars, s);
    CandidatesAreOnGrid(r, s);
    hide FreeStarts, Candidate, OnGrid, KeepsAllBuffers;
  }

  /** Every offered slot lies in the workday of its allowed weekday, ends by the end of the
      window, and starts no earlier than a minute before it. */
  lemma SlotsLieInWindow(r: SlotRequest, calendars: seq<seq<Interval>>, s: int)
    requires ValidRequest(r) && s in FreeStarts(r, calendars)
    ensures Weekday(DayOf(s)) in r.weekdays
    ensures DayStart(r, DayOf(s)) <= s && s + r.duration * MINUTE <= DayEnd(r, DayOf(s))
    ensures s + r.duration * MINUTE - r.offset <= r.timeMax
    ensures s > LocalStart(r) - MINUTE
  {
    FreeStartsOnGrid(r, calendars, s);
    FirstStartInWorkday(r, DayOf(s));
    Rounding(r, Max(DayStart(r, DayOf(s)), LocalStart(r)));
  }

  /** The window starts inside the workday, on a step-aligned minute with non-zero seconds,
      and the truncated minute is itself free and fits. */
  ghost predicate StartsEarly(r: SlotRequest, calendars: seq<seq<Interval>>)
    requires ValidRequest(r)
  {
    var start := LocalStart(r);
    var truncated := start - start % MINUTE;
    && start % MINUTE != 0 && start / MINUTE % 60 % r.step == 0
    && DayStart(r, DayOf(start)) < start
    && Weekday(DayOf(start)) in r.weekdays
    && truncated + r.duration * MINUTE <= Limit(r, DayOf(start))
    && KeepsAllBuffers(r, calendars, truncated)
  }

  lemma TruncatedDay(t: int)
    ensures DayOf(t - t % MINUTE) == DayOf(t)
  {
  }

  /** The first start of the window's day can only precede the window by its seconds. */
  lemma EarlyFirstStart(r: SlotRequest)
    requires ValidRequest(r)
    ensures var start := LocalStart(r);
            var first := FirstStart(r, DayOf(start));
            first < start ==>
              && first == start - start % MINUTE && start % MINUTE != 0 && start / MINUTE % 60 % r.step == 0
              && DayStart(r, DayOf(start)) < start
  {
    DayStartIsWholeMinute(r, DayOf(LocalStart(r)));
    Rounding(r, Max(DayStart(r, DayOf(LocalStart(r))), LocalStart(r)));
    hide RoundUp, DayOf, LocalStart, DayStart;
  }

  lemma DayStartIsWholeMinute(r: SlotRequest, day: int)
    ensures DayStart(r, day) % MINUTE == 0
  {
    assert DayStart(r, day) == (day * 1440 + r.workStart) * MINUTE;
    RemainderIs(DayStart(r, day), day * 1440 + r.workStart, MINUTE, 0);
  }

  lemma OnlyFirstBeforeStart(s: int, first: int, start: int, m: int)
    requires first <= s < start && first == start - start % MINUTE && m >= MINUTE && (s - first) % m == 0
    ensures s == first
  {
    ModStep(s - first, m);
  }

  lemma EarlyDay(r: SlotRequest, s: int)
    requires ValidRequest(r) && OnGrid(r, s) && s < LocalStart(r)
    ensures DayOf(s) == DayOf(LocalStart(r))
  {
    assert s / DAY <= LocalStart(r) / DAY;
  }

  lemma EarlyOnlyIf(r: SlotRequest, calendars: seq<seq<Interval>>, s: int)
    requires ValidRequest(r) && s in FreeStarts(r, calendars) && s < LocalStart(r)
    ensures s == LocalStart(r) - LocalStart(r) % MINUTE && StartsEarly(r, calendars)
  {
    FreeStartsOnGrid(r, calendars, s);
    EarlyDay(r, s);
    EarlyFirstStart(r);
    hide FreeStarts, Raw, RoundUp, FirstStart, DayOf, DayStart, DayEnd, LocalStart, KeepsBuffer;
    var first := FirstStart(r, DayOf(LocalStart(r)));
    OnlyFirstBeforeStart(s, first, LocalStart(r), r.step * MINUTE);
  }

  lemma EarlyIf(r: SlotRequest, calendars: seq<seq<Interval>>)
    requires ValidRequest(r) && StartsEarly(r, calendars)
    ensures LocalStart(r) - LocalStart(r) % MINUTE in FreeStarts(r, calendars)
  {
    var start := LocalStart(r);
    var truncated := start - start % MINUTE;
    TruncatedDay(start);
    Rounding(r, start);
    FreeStartsOnGrid(r, calendars, truncated);
    hide FreeStarts, Raw, RoundUp, KeepsBuffer;
    assert FirstStart(r, DayOf(start)) == truncated;
    ModStep(0, r.step * MINUTE);
  }

  /** A slot starts before the window exactly in that case, and then it is the window's
      start with the seconds dropped. */
  lemma EarlyStartsExactly(r: SlotRequest, calendars: seq<seq<Interval>>)
    requires ValidRequest(r)
    ensures (exists s :: s in FreeStarts(r, calendars) && s < LocalStart(r)) <==> StartsEarly(r, calendars)
    ensures forall s :: s in FreeStarts(r, calendars) && s < LocalStart(r) ==> s == LocalStart(r) - LocalStart(r) % MINUTE
  {
    forall s | s in FreeStarts(r, calendars) && s < LocalStart(r)
      ensures s == LocalStart(r) - LocalStart(r) % MINUTE && StartsEarly(r, calendars)
    {
      EarlyOnlyIf(r, calendars, s);
    }
    hide FreeStarts;
    if StartsEarly(r, calendars) {
      EarlyIf(r, calendars);
      assert LocalStart(r) % MINUTE > 0;
    }
  }

  /** A window from Monday 09:00:30 to midnight, in an empty calendar. */
  const HALF_MINUTE_PAST_NINE := SlotRequest(
    4 * DAY + 540 * MINUTE + 30_000_000, 5 * DAY - MINUTE, 30, 15, 0, 480, 1020, {0, 1, 2, 3, 4}, 0, 5)

  /** Its first slot starts at 09:00:00, half a minute before the window. */
  lemma HalfMinutePastNineStartsEarly()
    ensures ValidRequest(HALF_MINUTE_PAST_NINE)
    ensures 4 * DAY + 540 * MINUTE in FreeStarts(HALF_MINUTE_PAST_NINE, [])
    ensures 4 * DAY + 540 * MINUTE < LocalStart(HALF_MINUTE_PAST_NINE)
  {
    var r := HALF_MINUTE_PAST_NINE;
    var start := LocalStart(r);
    assert start % MINUTE == 30_000_000 && start / MINUTE == 4 * 1440 + 540 && DayOf(start) == 4;
    assert Weekday(4) == 0;
    assert StartsEarly(r, []);
    EarlyIf(r, []);
  }

  /** Taking the first k keeps the earliest: whatever is left out starts later than all of
      the k slots that were kept. */
  lemma TakeKeepsEarliest(xs: seq<int>, k: nat, x: int)
    requires Increasing(xs) && x in xs && x !in Take(xs, k)
    ensures |Take(xs, k)| == k && forall i :: 0 <= i < k ==> Take(xs, k)[i] < x
  {
    var j :| 0 <= j < |xs| && xs[j] == x;
    assert forall i :: 0 <= i < |Take(xs, k)| ==> Take(xs, k)[i] == xs[i];
  }

  /** The finder returns the earliest starts there are: each is a candidate that keeps every
      buffer, and one that is left out comes after all of a full answer. */
  lemma FoundSlotsAreTheEarliest(r: SlotRequest, calendars: seq<seq<Interval>>, s: int)
    requires ValidRequest(r)
    ensures var slots := Take(FreeStarts(r, calendars), r.maxResults);
            && |slots| <= r.maxResults && Increasing(slots)
            && (s in slots ==> Candidate(r, s) && KeepsAllBuffers(r, calendars, s))
            && (Candidate(r, s) && KeepsAllBuffers(r, calendars, s) && s !in slots ==>
                  |slots| == r.maxResults && forall i :: 0 <= i < |slots| ==> slots[i] < s)
  {
    FreeStartsAreExact(r, calendars, s);
    hide FreeStarts, Candidate, KeepsAllBuffers;
    var all := FreeStarts(r, calendars);
    if s in all && s !in Take(all, r.maxResults) {
      TakeKeepsEarliest(all, r.maxResults, s);
    }
  }
}
