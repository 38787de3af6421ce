/** The free-slot finder: a walk over days and a time grid that refines "filter the grid and
    take the first k". Times are microseconds; the zone is a fixed offset from UTC. */
module FreeSlots {
  import opened StableSort

  const MINUTE: int := 60_000_000
  const DAY: int := 86_400_000_000

  datatype SlotRequest = SlotRequest(
    timeMin: int,
    timeMax: int,
    duration: int,
    step: int,
    buffer: int,
    workStart: int,
    workEnd: int,
    weekdays: set<int>,
    offset: int,
    maxResults: nat)

  /** The validators of CalendarFreeSlotRequest; durations and workday bounds in minutes. */
  predicate ValidRequest(r: SlotRequest) {
    && r.timeMin < r.timeMax
    && 5 <= r.duration <= 480
    && 5 <= r.step <= 120
    && 0 <= r.buffer <= 180
    && 0 <= r.workStart < r.workEnd < 1440
    && (forall d :: d in r.weekdays ==> 0 <= d <= 6)
    && 1 <= r.maxResults <= 50
  }

  datatype Interval = Interval(start: int, end: int)

  function LocalStart(r: SlotRequest): int { r.timeMin + r.offset }

  function LocalEnd(r: SlotRequest): int { r.timeMax + r.offset }

  function DayOf(t: int): int { t / DAY }

  /** date.weekday() with day 0 on Thursday, 1 January 1970. */
  function Weekday(day: int): int { (day + 3) % 7 }

  function DayStart(r: SlotRequest, day: int): int { day * DAY + r.workStart * MINUTE }

  function DayEnd(r: SlotRequest, day: int): int { day * DAY + r.workEnd * MINUTE }

  function Max(a: int, b: int): int { if a < b then b else a }

  function Min(a: int, b: int): int { if b < a then b else a }

  /** Seconds and microseconds are dropped, then the minute of the hour is rounded up to a
      multiple of the step. */
  function RoundUp(r: SlotRequest, t: int): int
    requires ValidRequest(r)
  {
    var minuteMod := t / MINUTE % 60 % r.step;
    if minuteMod != 0 || t % MINUTE != 0 then
      t - t % MINUTE + (r.step - minuteMod) % r.step * MINUTE
    else t
  }

  /** The first candidate start of a day. */
  function FirstStart(r: SlotRequest, day: int): int
    requires ValidRequest(r)
  {
    RoundUp(r, Max(DayStart(r, day), LocalStart(r)))
  }

  function Limit(r: SlotRequest, day: int): int {
    Min(DayEnd(r, day), LocalEnd(r))
  }

  /** The candidates of one day from `cursor` on. */
  function DayGrid(r: SlotRequest, cursor: int, limit: int): seq<int>
    requires ValidRequest(r)
    decreases limit - cursor
  {
    if cursor + r.duration * MINUTE > limit then []
    else [cursor] + DayGrid(r, cursor + r.step * MINUTE, limit)
  }

  function DayCandidates(r: SlotRequest, day: int): seq<int>
    requires ValidRequest(r)
  {
    if Weekday(day) in r.weekdays then DayGrid(r, FirstStart(r, day), Limit(r, day)) else []
  }

  /** The candidates of all days from `day` on. */
  function Grid(r: SlotRequest, day: int): seq<int>
    requires ValidRequest(r)
    decreases DayOf(LocalEnd(r)) - day
  {
    if day > DayOf(LocalEnd(r)) then [] else DayCandidates(r, day) + Grid(r, day + 1)
  }

  predicate Clashes(r: SlotRequest, start: int, busy: Interval) {
    start - r.offset < busy.end && start + r.duration * MINUTE - r.offset > busy.start
  }

  predicate IsFree(r: SlotRequest, busy: seq<Interval>, start: int) {
    forall i :: 0 <= i < |busy| ==> !Clashes(r, start, busy[i])
  }

  function Filter(r: SlotRequest, busy: seq<Interval>, starts: seq<int>): seq<int> {
    if starts == [] then []
    else (if IsFree(r, busy, starts[0]) then [starts[0]] else []) + Filter(r, busy, starts[1..])
  }

  function Take(xs: seq<int>, k: nat): seq<int> {
    if |xs| <= k then xs else xs[..k]
  }

  function Padded(interval: Interval, buffer: int): Interval {
    Interval(interval.start - buffer * MINUTE, interval.end + buffer * MINUTE)
  }

  /** The busy intervals of all queried calendars, as returned. */
  function Raw(calendars: seq<seq<Interval>>): seq<Interval> {
    if calendars == [] then [] else Raw(calendars[..|calendars| - 1]) + calendars[|calendars| - 1]
  }

  function PadAll(raw: seq<Interval>, buffer: int): seq<Interval> {
    seq(|raw|, i requires 0 <= i < |raw| => Padded(raw[i], buffer))
  }

  function BusyKey(interval: Interval): int { interval.start }

  function Busy(r: SlotRequest, calendars: seq<seq<Interval>>): seq<Interval> {
    SortBy(BusyKey, PadAll(Raw(calendars), r.buffer))
  }

  /** Every free candidate of the request, in grid order. */
  function FreeStarts(r: SlotRequest, calendars: seq<seq<Interval>>): seq<int>
    requires ValidRequest(r)
  {
    Filter(r, Busy(r, calendars), Grid(r, DayOf(LocalStart(r))))
  }

  method CollectBusy(r: SlotRequest, calendars: seq<seq<Interval>>) returns (busy: seq<Interval>)
    ensures busy == Busy(r, calendars)
  {
    busy := [];
    for c := 0 to |calendars|
      invariant busy == PadAll(Raw(calendars[..c]), r.buffer)
    {
      for i := 0 to |calendars[c]|
        invariant busy == PadAll(Raw(calendars[..c]) + calendars[c][..i], r.buffer)
      {
        busy := busy + [Padded(calendars[c][i], r.buffer)];
      }
      assert calendars[c][..|calendars[c]|] == calendars[c];
      assert calendars[..c + 1][..c] == calendars[..c];
    }
    assert calendars[..|calendars|] == calendars;
    busy := SortBy(BusyKey, busy);
  }

  lemma Associates(a: seq<int>, b: seq<int>, c: seq<int>)
    ensures a + (b + c) == a + b + c
  {
  }

  lemma FilterUnfolds(r: SlotRequest, busy: seq<Interval>, start: int, rest: seq<int>)
    ensures Filter(r, busy, [start] + rest) == (if IsFree(r, busy, start) then [start] else []) + Filter(r, busy, rest)
    ensures Filter(r, busy, []) == []
  {
    assert ([start] + rest)[1..] == rest;
  }

  lemma {:induction false} FilterSplits(r: SlotRequest, busy: seq<Interval>, a: seq<int>, b: seq<int>)
    ensures Filter(r, busy, a + b) == Filter(r, busy, a) + Filter(r, busy, b)
  {
    if a == [] {
      assert a + b == b && Filter(r, busy, a) == [];
    } else {
      var head := if IsFree(r, busy, a[0]) then [a[0]] else [];
      assert a == [a[0]] + a[1..];
      Associates([a[0]], a[1..], b);
      FilterSplits(r, busy, a[1..], b);
      FilterUnfolds(r, busy, a[0], a[1..]);
      FilterUnfolds(r, busy, a[0], a[1..] + b);
      hide Filter, IsFree;
      Associates(head, Filter(r, busy, a[1..]), Filter(r, busy, b));
    }
  }

  lemma GridUnfolds(r: SlotRequest, day: int)
    requires ValidRequest(r) && day <= DayOf(LocalEnd(r))
    ensures Grid(r, day) == DayCandidates(r, day) + Grid(r, day + 1)
  {
    hide DayCandidates;
  }

  lemma DayGridUnfolds(r: SlotRequest, cursor: int, limit: int)
    requires ValidRequest(r)
    ensures DayGrid(r, cursor, limit) ==
              if cursor + r.duration * MINUTE > limit then [] else [cursor] + DayGrid(r, cursor + r.step * MINUTE, limit)
  {
  }

  /** The slots collected so far: all but the rest, or the first k of all. */
  ghost predicate Collected(all: seq<int>, slots: seq<int>, rest: seq<int>, k: nat) {
    |slots| <= k && if |slots| < k then all == slots + rest else slots == Take(all, k)
  }

  lemma DayByDay(r: SlotRequest, busy: seq<Interval>, day: int, all: seq<int>, slots: seq<int>)
    requires ValidRequest(r) && day <= DayOf(LocalEnd(r)) && |slots| < r.maxResults
    requires Collected(all, slots, Filter(r, busy, Grid(r, day)), r.maxResults)
    ensures all == slots + Filter(r, busy, DayCandidates(r, day)) + Filter(r, busy, Grid(r, day + 1))
    ensures Weekday(day) !in r.weekdays ==> Collected(all, slots, Filter(r, busy, Grid(r, day + 1)), r.maxResults)
  {
    var today, later := Filter(r, busy, DayCandidates(r, day)), Filter(r, busy, Grid(r, day + 1));
    GridUnfolds(r, day);
    FilterSplits(r, busy, DayCandidates(r, day), Grid(r, day + 1));
    Associates(slots, today, later);
    if Weekday(day) !in r.weekdays {
      FilterUnfolds(r, busy, 0, []);
      assert today == [] && slots + today == slots;
    }
    hide Filter, Grid, DayCandidates;
  }

  lemma NothingCollected(all: seq<int>, k: nat)
    requires k > 0
    ensures Collected(all, [], all, k)
  {
    assert [] + all == all;
  }

  lemma NoDaysLeft(r: SlotRequest, busy: seq<Interval>, day: int, all: seq<int>, slots: seq<int>)
    requires ValidRequest(r) && (day > DayOf(LocalEnd(r)) || |slots| >= r.maxResults)
    requires Collected(all, slots, Filter(r, busy, Grid(r, day)), r.maxResults)
    ensures slots == Take(all, r.maxResults)
  {
  }

  /** The walk over days and grid; a slot is given by its start and lasts the duration. */
  method FindFreeSlots(r: SlotRequest, calendars: seq<seq<Interval>>) returns (slots: seq<int>)
    requires ValidRequest(r)
    ensures slots == Take(FreeStarts(r, calendars), r.maxResults)
  {
    var busy := CollectBusy(r, calendars);
    ghost var all := FreeStarts(r, calendars);
    slots := [];
    var day := DayOf(LocalStart(r));
    assert all == Filter(r, busy, Grid(r, day));
    hide Collected, Filter, Grid, DayCandidates, DayGrid, Take, Busy, FreeStarts, FirstStart, Limit;
    NothingCollected(all, r.maxResults);
    while day <= DayOf(LocalEnd(r)) && |slots| < r.maxResults
      invariant Collected(all, slots, Filter(r, busy, Grid(r, day)), r.maxResults)
    {
      DayByDay(r, busy, day, all, slots);
      if Weekday(day) in r.weekdays {
        slots := ScanDay(r, busy, day, slots, Filter(r, busy, Grid(r, day + 1)));
      }
      day := day + 1;
    }
    NoDaysLeft(r, busy, day, all, slots);
  }

  /** The slots so far, what the rest of the day adds, and what the later days add. */
  ghost predicate Splits(all: seq<int>, slots: seq<int>, today: seq<int>, later: seq<int>) {
    all == slots + today + later
  }

  lemma NextCursor(r: SlotRequest, busy: seq<Interval>, cursor: int, limit: int, all: seq<int>, slots: seq<int>, later: seq<int>)
    requires ValidRequest(r) && Splits(all, slots, Filter(r, busy, DayGrid(r, cursor, limit)), later)
    requires cursor + r.duration * MINUTE <= limit
    ensures Splits(all, if IsFree(r, busy, cursor) then slots + [cursor] else slots,
                   Filter(r, busy, DayGrid(r, cursor + r.step * MINUTE, limit)), later)
  {
    var next := DayGrid(r, cursor + r.step * MINUTE, limit);
    var head := if IsFree(r, busy, cursor) then [cursor] else [];
    DayGridUnfolds(r, cursor, limit);
    FilterUnfolds(r, busy, cursor, next);
    hide DayGrid, Filter, IsFree;
    Associates(slots, head, Filter(r, busy, next));
    assert slots + [] == slots;
  }

  lemma DayDone(r: SlotRequest, busy: seq<Interval>, cursor: int, limit: int, all: seq<int>, slots: seq<int>, later: seq<int>)
    requires ValidRequest(r) && Splits(all, slots, Filter(r, busy, DayGrid(r, cursor, limit)), later)
    requires |slots| == r.maxResults || (|slots| < r.maxResults && cursor + r.duration * MINUTE > limit)
    ensures Collected(all, slots, later, r.maxResults)
  {
    var today := Filter(r, busy, DayGrid(r, cursor, limit));
    DayGridUnfolds(r, cursor, limit);
    FilterUnfolds(r, busy, 0, []);
    hide Filter, DayGrid;
    if |slots| < r.maxResults {
      assert slots + today == slots;
    } else {
      assert all[..|slots|] == slots;
      assert |all| <= |slots| ==> all == all[..|slots|];
    }
  }

  /** The inner loop: append the free candidates of one day until the cap is reached. */
  method ScanDay(r: SlotRequest, busy: seq<Interval>, day: int, before: seq<int>, ghost later: seq<int>)
    returns (slots: seq<int>)
    requires ValidRequest(r) && |before| < r.maxResults
    ensures Collected(before + Filter(r, busy, DayGrid(r, FirstStart(r, day), Limit(r, day))) + later,
                      slots, later, r.maxResults)
  {
    slots := before;
    var cursor := Max(DayStart(r, day), LocalStart(r));
    var minuteMod := cursor / MINUTE % 60 % r.step;
    if minuteMod != 0 || cursor % MINUTE != 0 {
      cursor := cursor - cursor % MINUTE + (r.step - minuteMod) % r.step * MINUTE;
    }
    assert cursor == FirstStart(r, day);
    var limit := Limit(r, day);
    ghost var all := before + Filter(r, busy, DayGrid(r, cursor, limit)) + later;
    assert Splits(all, slots, Filter(r, busy, DayGrid(r, cursor, limit)), later);
    hide DayGrid, Filter, IsFree, Splits, Collected, FirstStart, Limit;
    while cursor + r.duration * MINUTE <= limit
      invariant |slots| < r.maxResults
      invariant Splits(all, slots, Filter(r, busy, DayGrid(r, cursor, limit)), later)
      decreases limit - cursor
    {
      NextCursor(r, busy, cursor, limit, all, slots, later);
      if IsFree(r, busy, cursor) {
        slots := slots + [cursor];
        if |slots| >= r.maxResults {
          DayDone(r, busy, cursor + r.step * MINUTE, limit, all, slots, later);
          return;
        }
      }
      cursor := cursor + r.step * MINUTE;
    }
    DayDone(r, busy, cursor, limit, all, slots, later);
  }
}
