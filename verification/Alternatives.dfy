/** The alternatives offered around a busy target, nearest first, at most three and pairwise
    at least one duration apart. They are picked from the first 50 free slots of the day. */
module Alternatives {
  import opened StableSort
  import opened FreeSlots
  import opened SlotProperties

  const CAP: nat := 3

  function Abs(x: int): int { if x < 0 then -x else x }

  function Distance(target: int): int -> int {
    (start: int) => Abs(start - target)
  }

  predicate Apart(a: int, b: int, duration: int) {
    Abs(a - b) >= duration
  }

  predicate Fits(start: int, chosen: seq<int>, duration: int) {
    forall i :: 0 <= i < |chosen| ==> Apart(start, chosen[i], duration)
  }

  /** The selection loop from the i-th candidate on. */
  function Select(candidates: seq<int>, chosen: seq<int>, duration: int): seq<int> {
    if candidates == [] then chosen
    else
      var next := if Fits(candidates[0], chosen, duration) then chosen + [candidates[0]] else chosen;
      if |next| >= CAP then next else Select(candidates[1..], next, duration)
  }

  function Alternatives(starts: seq<int>, target: int, duration: int): seq<int> {
    Select(SortBy(Distance(target), starts), [], duration)
  }

  method PickAlternatives(starts: seq<int>, target: int, duration: int) returns (alternatives: seq<int>)
    ensures alternatives == Alternatives(starts, target, duration)
  {
    var candidates := SortBy(Distance(target), starts);
    alternatives := [];
    var i := 0;
    while i < |candidates|
      invariant 0 <= i <= |candidates|
      invariant |alternatives| < CAP
      invariant Alternatives(starts, target, duration) == Select(candidates[i..], alternatives, duration)
    {
      assert candidates[i..][1..] == candidates[i + 1..];
      if Fits(candidates[i], alternatives, duration) {
        alternatives := alternatives + [candidates[i]];
      }
      if |alternatives| >= CAP {
        break;
      }
      i := i + 1;
    }
  }

  /** One slot of this duration ends before the other one begins. */
  ghost predicate NoClash(a: int, b: int, duration: int) {
    a + duration <= b || b + duration <= a
  }

  ghost predicate PairwiseApart(chosen: seq<int>, duration: int) {
    forall i, j :: 0 <= i < j < |chosen| ==> NoClash(chosen[i], chosen[j], duration)
  }

  /** A kept alternative explains why `start` was not offered: it clashes with it and is at
      least as near to the target. */
  ghost predicate Displaced(start: int, chosen: seq<int>, target: int, duration: int) {
    exists i :: 0 <= i < |chosen| && !NoClash(start, chosen[i], duration) && Abs(chosen[i] - target) <= Abs(start - target)
  }

  /** All three places went to slots at least as near. */
  ghost predicate Outranked(start: int, chosen: seq<int>, target: int) {
    |chosen| == 3 && forall i :: 0 <= i < |chosen| ==> Abs(chosen[i] - target) <= Abs(start - target)
  }

  ghost predicate Explained(start: int, chosen: seq<int>, target: int, duration: int) {
    start in chosen || Displaced(start, chosen, target, duration) || Outranked(start, chosen, target)
  }

  ghost predicate NearestFirst(xs: seq<int>, target: int) {
    forall i, j :: 0 <= i < j < |xs| ==> Abs(xs[i] - target) <= Abs(xs[j] - target)
  }

  /** What the loop keeps: `chosen` are the alternatives found among the nearer slots. */
  ghost predicate Good(candidates: seq<int>, chosen: seq<int>, target: int, duration: int) {
    && |chosen| <= CAP && PairwiseApart(chosen, duration) && NearestFirst(chosen + candidates, target)
  }

  lemma ApartStep(chosen: seq<int>, start: int, duration: int)
    requires PairwiseApart(chosen, duration) && Fits(start, chosen, duration)
    ensures PairwiseApart(chosen + [start], duration)
  {
    forall i | 0 <= i < |chosen|
      ensures NoClash(chosen[i], start, duration)
    {
      assert Apart(start, chosen[i], duration);
    }
  }

  lemma SkippedKeepsOrder(candidates: seq<int>, chosen: seq<int>, target: int)
    requires candidates != [] && NearestFirst(chosen + candidates, target)
    ensures NearestFirst(chosen + candidates[1..], target)
  {
    var xs, ys := chosen + candidates, chosen + candidates[1..];
    forall i, j | 0 <= i < j < |ys|
      ensures Abs(ys[i] - target) <= Abs(ys[j] - target)
    {
      assert ys[i] == xs[if i < |chosen| then i else i + 1] && ys[j] == xs[if j < |chosen| then j else j + 1];
    }
  }

  lemma GoodStep(candidates: seq<int>, chosen: seq<int>, target: int, duration: int)
    requires candidates != [] && Good(candidates, chosen, target, duration) && |chosen| < CAP
    ensures var next := if Fits(candidates[0], chosen, duration) then chosen + [candidates[0]] else chosen;
            Good(candidates[1..], next, target, duration)
  {
    hide Fits, PairwiseApart, NearestFirst;
    if Fits(candidates[0], chosen, duration) {
      ApartStep(chosen, candidates[0], duration);
      assert chosen + [candidates[0]] + candidates[1..] == chosen + candidates;
    } else {
      SkippedKeepsOrder(candidates, chosen, target);
    }
  }

  lemma GoodExplains(candidates: seq<int>, chosen: seq<int>, target: int, duration: int, start: int)
    requires Good(candidates, chosen, target, duration) && start in candidates
    requires |chosen| == CAP || (start == candidates[0] && !Fits(start, chosen, duration))
    ensures Explained(start, chosen, target, duration)
  {
    var j :| 0 <= j < |candidates| && candidates[j] == start;
    assert (chosen + candidates)[|chosen| + j] == start;
    assert forall i :: 0 <= i < |chosen| ==> (chosen + candidates)[i] == chosen[i];
  }

  lemma ExplainedStays(start: int, chosen: seq<int>, result: seq<int>, target: int, duration: int)
    requires Explained(start, chosen, target, duration) && chosen <= result && (|chosen| < CAP || result == chosen)
    ensures Explained(start, result, target, duration)
  {
  }

  lemma OfferedIsExplained(start: int, result: seq<int>, target: int, duration: int)
    requires start in result
    ensures Explained(start, result, target, duration)
  {
  }

  lemma GoodAlone(candidates: seq<int>, chosen: seq<int>, target: int, duration: int)
    requires Good(candidates, chosen, target, duration)
    ensures Good([], chosen, target, duration)
  {
    assert forall k :: 0 <= k < |chosen| ==> (chosen + candidates)[k] == (chosen + [])[k];
  }

  lemma {:induction false} SelectExplains(candidates: seq<int>, chosen: seq<int>, target: int, duration: int, start: int)
    requires Good(candidates, chosen, target, duration) && |chosen| < CAP
    ensures var result := Select(candidates, chosen, duration);
            && chosen <= result && Good([], result, target, duration)
            && (start in result ==> start in chosen || start in candidates)
            && (start in candidates ==> Explained(start, result, target, duration))
  {
    if candidates == [] {
      assert chosen + [] == chosen;
    } else {
      hide Good, Explained, Fits;
      var first, rest := candidates[0], candidates[1..];
      var next := if Fits(first, chosen, duration) then chosen + [first] else chosen;
      var result := Select(candidates, chosen, duration);
      GoodStep(candidates, chosen, target, duration);
      assert candidates == [first] + rest && |next| <= CAP;
      if |next| < CAP {
        SelectExplains(rest, next, target, duration, start);
      } else {
        GoodAlone(rest, next, target, duration);
        if start in rest {
          GoodExplains(rest, next, target, duration, start);
        }
      }
      if start == first {
        FirstIsExplained(candidates, chosen, result, target, duration);
      }
    }
  }

  lemma FirstIsExplained(candidates: seq<int>, chosen: seq<int>, result: seq<int>, target: int, duration: int)
    requires candidates != [] && Good(candidates, chosen, target, duration) && |chosen| < CAP && chosen <= result
    requires Fits(candidates[0], chosen, duration) ==> chosen + [candidates[0]] <= result
    ensures Explained(candidates[0], result, target, duration)
  {
    hide Good, Explained, Fits;
    if Fits(candidates[0], chosen, duration) {
      assert (chosen + [candidates[0]])[|chosen|] == candidates[0];
      OfferedIsExplained(candidates[0], result, target, duration);
    } else {
      GoodExplains(candidates, chosen, target, duration, candidates[0]);
      ExplainedStays(candidates[0], chosen, result, target, duration);
    }
  }

  lemma SortedIsGood(starts: seq<int>, target: int, duration: int)
    ensures Good(SortBy(Distance(target), starts), [], target, duration)
  {
    var candidates := SortBy(Distance(target), starts);
    SortByIsSort(Distance(target), starts);
    assert [] + candidates == candidates;
    forall i, j | 0 <= i < j < |candidates|
      ensures Abs(candidates[i] - target) <= Abs(candidates[j] - target)
    {
      assert Distance(target)(candidates[i]) <= Distance(target)(candidates[j]);
    }
  }

  lemma GoodResult(result: seq<int>, target: int, duration: int)
    requires Good([], result, target, duration)
    ensures |result| <= 3 && PairwiseApart(result, duration) && NearestFirst(result, target)
  {
    assert result + [] == result;
  }

  /** At most three alternatives, pairwise at least one duration apart and in order of
      distance, all taken from the free slots; every free slot is offered, clashes with an
      offered slot at least as near, or comes after three slots at least as near. */
  lemma AlternativesAreNearest(starts: seq<int>, target: int, duration: int, start: int)
    requires duration > 0
    ensures var result := Alternatives(starts, target, duration);
            && |result| <= 3 && PairwiseApart(result, duration)
            && NearestFirst(result, target)
            && (start in result ==> start in starts)
            && (start in starts ==> Explained(start, result, target, duration))
  {
    var candidates := SortBy(Distance(target), starts);
    SortedIsGood(starts, target, duration);
    SortByKeepsElements(Distance(target), starts, start);
    SelectExplains(candidates, [], target, duration, start);
    GoodResult(Select(candidates, [], duration), target, duration);
    hide Good, Explained, Select, SortBy, PairwiseApart, NearestFirst;
  }

  /** Whenever there is a candidate, the first alternative is a nearest one. */
  lemma FirstAlternativeIsNearest(starts: seq<int>, target: int, duration: int, start: int)
    requires duration > 0 && start in starts
    ensures var result := Alternatives(starts, target, duration);
            result != [] && Abs(result[0] - target) <= Abs(start - target)
  {
    AlternativesAreNearest(starts, target, duration, start);
    var result := Alternatives(starts, target, duration);
    if start in result {
      var i :| 0 <= i < |result| && result[i] == start;
    }
  }

  /** The slot request that _target_check makes for the whole day of the target; `target` is
      local time. */
  function SameDayRequest(target: int, duration: int, workStart: int, workEnd: int, offset: int): SlotRequest {
    var dayStart := DayOf(target) * DAY;
    SlotRequest(dayStart - offset, dayStart + DAY - offset, duration, 15, 0, workStart, workEnd,
                {Weekday(DayOf(target))}, offset, 50)
  }

  lemma WholeQuarters(n: int)
    ensures n * MINUTE % (15 * MINUTE) == 0 <==> n % 15 == 0
  {
    RemainderIs(n * MINUTE, n / 15, 15 * MINUTE, n % 15 * MINUTE);
  }

  lemma QuarterCounts(day: int, workStart: int, n: int)
    ensures (workStart % 60 + n) % 15 == (day * 1440 + workStart + n) % 15
  {
    RemainderIs(day * 1440 + workStart + n, 96 * day + workStart / 60 * 4 + (workStart % 60 + n) / 15, 15,
                (workStart % 60 + n) % 15);
  }

  /** Minutes counted on from the start of work are aligned on quarters of an hour. */
  lemma QuarterHours(day: int, workStart: int, n: int)
    ensures Aligned(workStart % 60, n, 15) <==> (day * 1440 + workStart + n) * MINUTE % (15 * MINUTE) == 0
  {
    QuarterCounts(day, workStart, n);
    WholeQuarters(day * 1440 + workStart + n);
  }

  /** The slots searched for a target: those of its own day that start on a quarter of an hour
      and lie inside the working hours. */
  lemma SameDayCandidatesExactly(target: int, duration: int, workStart: int, workEnd: int, offset: int, s: int)
    requires ValidRequest(SameDayRequest(target, duration, workStart, workEnd, offset))
    ensures Candidate(SameDayRequest(target, duration, workStart, workEnd, offset), s) <==>
              var day := target / DAY;
              && s % (15 * MINUTE) == 0
              && day * DAY + workStart * MINUTE <= s && s + duration * MINUTE <= day * DAY + workEnd * MINUTE
  {
    var r, day := SameDayRequest(target, duration, workStart, workEnd, offset), target / DAY;
    SameDayOnly(r, day, s);
    var begin := day * DAY + workStart * MINUTE;
    WorkdayMinutes(day, workStart, s);
    QuarterHours(day, workStart, (s - begin) / MINUTE);
    hide Aligned, Weekday;
  }

  lemma SameDayOnly(r: SlotRequest, day: int, s: int)
    requires ValidRequest(r) && r.weekdays == {Weekday(day)} && r.timeMin + r.offset == day * DAY
    requires r.timeMax + r.offset == day * DAY + DAY
    ensures Candidate(r, s) ==> s / DAY == day
    ensures day * DAY + r.workStart * MINUTE <= s && s + r.duration * MINUTE <= day * DAY + r.workEnd * MINUTE ==> s / DAY == day
    ensures day * DAY / DAY == day
  {
    hide Aligned, Weekday;
  }

  lemma WorkdayMinutes(day: int, workStart: int, s: int)
    ensures var begin := day * DAY + workStart * MINUTE;
            && begin / MINUTE % 60 == workStart % 60 && begin % MINUTE == 0
            && ((s - begin) % MINUTE == 0 ==> s == (day * 1440 + workStart + (s - begin) / MINUTE) * MINUTE)
            && (s % (15 * MINUTE) == 0 ==> (s - begin) % MINUTE == 0)
  {
    var begin := day * DAY + workStart * MINUTE;
    WholeMinutesFrom(day * 1440 + workStart, begin);
    RemainderIs(day * 1440 + workStart, 24 * day + workStart / 60, 60, workStart % 60);
    if s % (15 * MINUTE) == 0 {
      WholeMinutesFrom(15 * (s / (15 * MINUTE)) - (day * 1440 + workStart), s - begin);
    }
  }

  /** What is offered: the choice among the slots that the capped search returns. */
  function DayAlternatives(r: SlotRequest, calendars: seq<seq<Interval>>, target: int): seq<int>
    requires ValidRequest(r)
  {
    Alternatives(Take(FreeStarts(r, calendars), r.maxResults), target, r.duration * MINUTE)
  }

  /** The alternatives block of _target_check for a busy target. */
  method SameDayAlternatives(target: int, duration: int, workStart: int, workEnd: int, offset: int,
                             calendars: seq<seq<Interval>>)
    returns (alternatives: seq<int>)
    requires ValidRequest(SameDayRequest(target, duration, workStart, workEnd, offset))
    ensures alternatives == DayAlternatives(SameDayRequest(target, duration, workStart, workEnd, offset), calendars, target)
    ensures |alternatives| <= 3 && PairwiseApart(alternatives, duration * MINUTE)
    ensures forall i :: 0 <= i < |alternatives| ==>
      Offerable(SameDayRequest(target, duration, workStart, workEnd, offset), calendars, target, alternatives[i])
  {
    var request := SameDayRequest(target, duration, workStart, workEnd, offset);
    var slots := FindFreeSlots(request, calendars);
    alternatives := PickAlternatives(slots, target, duration * MINUTE);
    AlternativesAreNearest(slots, target, duration * MINUTE, target);
    forall i | 0 <= i < |alternatives|
      ensures Offerable(request, calendars, target, alternatives[i])
    {
      var s := alternatives[i];
      AlternativesAreNearest(slots, target, duration * MINUTE, s);
      assert s in FreeStarts(request, calendars);
      FreeStartsAreExact(request, calendars, s);
      SlotsLieInWindow(request, calendars, s);
    }
  }

  /** On the target's own day, inside working hours, and free of every busy interval. */
  ghost predicate Offerable(r: SlotRequest, calendars: seq<seq<Interval>>, target: int, s: int) {
    && DayOf(s) == DayOf(target)
    && DayStart(r, DayOf(s)) <= s && s + r.duration * MINUTE <= DayEnd(r, DayOf(s))
    && KeepsAllBuffers(r, calendars, s)
  }

  // ----- nearness under the cap -----

  ghost predicate NearestOf(s: int, starts: seq<int>, target: int) {
    s in starts && forall other :: other in starts ==> Abs(s - target) <= Abs(other - target)
  }

  lemma TakeIsPart(xs: seq<int>, k: nat)
    ensures forall x :: x in Take(xs, k) ==> x in xs
    ensures |xs| <= k ==> Take(xs, k) == xs
  {
  }

  /** The nearest of all candidates comes first exactly when it is among those shown. */
  lemma NearestOfShown(shown: seq<int>, all: seq<int>, target: int, duration: int)
    requires duration > 0 && forall x :: x in shown ==> x in all
    ensures var result := Alternatives(shown, target, duration);
            (result != [] && NearestOf(result[0], all, target)) <==> exists s :: s in shown && NearestOf(s, all, target)
  {
    var result := Alternatives(shown, target, duration);
    if s :| s in shown && NearestOf(s, all, target) {
      FirstAlternativeIsNearest(shown, target, duration, s);
      AlternativesAreNearest(shown, target, duration, result[0]);
    } else if result != [] {
      AlternativesAreNearest(shown, target, duration, result[0]);
    }
  }

  lemma NearestOfAll(all: seq<int>, target: int, duration: int)
    requires duration > 0 && all != []
    ensures var result := Alternatives(all, target, duration); result != [] && NearestOf(result[0], all, target)
  {
    var result := Alternatives(all, target, duration);
    forall s | s in all
      ensures result != [] && Abs(result[0] - target) <= Abs(s - target)
    {
      FirstAlternativeIsNearest(all, target, duration, s);
    }
    assert all[0] in all;
    AlternativesAreNearest(all, target, duration, result[0]);
  }

  /** The first alternative is nearest among all free starts of the day if and only if the
      capped search returned a nearest one; with no more free starts than the cap it always is. */
  lemma FirstOfTheDayIsNearestExactly(r: SlotRequest, calendars: seq<seq<Interval>>, target: int)
    requires ValidRequest(r)
    ensures var all := FreeStarts(r, calendars);
            var result := DayAlternatives(r, calendars, target);
            && ((result != [] && NearestOf(result[0], all, target)) <==>
                  exists s :: s in Take(all, r.maxResults) && NearestOf(s, all, target))
            && (all != [] && |all| <= r.maxResults ==> result != [] && NearestOf(result[0], all, target))
  {
    var all := FreeStarts(r, calendars);
    var taken := Take(all, r.maxResults);
    TakeIsPart(all, r.maxResults);
    NearestOfShown(taken, all, target, r.duration * MINUTE);
    if all != [] {
      NearestOfAll(all, target, r.duration * MINUTE);
    }
    hide FreeStarts, Take, Alternatives, NearestOf;
  }

  // ----- a late target on a long day -----

  function Steps(cursor: int, step: int, n: nat): (xs: seq<int>)
    ensures |xs| == n
  {
    seq(n, i requires 0 <= i < n => cursor + i * step)
  }

  lemma OneMoreOfSteps(cursor: int, step: int, n: nat)
    ensures Steps(cursor, step, n + 1) == Steps(cursor, step, n) + [cursor + n * step]
  {
  }

  lemma Advance(n: nat, step: int)
    ensures (n + 1) * step == n * step + step
  {
  }

  lemma {:induction false} DayGridRuns(r: SlotRequest, cursor: int, limit: int, n: nat)
    requires ValidRequest(r) && cursor + n * (r.step * MINUTE) + r.duration * MINUTE <= limit
    ensures DayGrid(r, cursor, limit) == Steps(cursor, r.step * MINUTE, n) + DayGrid(r, cursor + n * (r.step * MINUTE), limit)
  {
    if n == 0 {
      assert Steps(cursor, r.step * MINUTE, 0) + DayGrid(r, cursor, limit) == DayGrid(r, cursor, limit);
    } else {
      hide DayGrid, Steps;
      var step := r.step * MINUTE;
      var last := cursor + (n - 1) * step;
      Advance(n - 1, step);
      DayGridRuns(r, cursor, limit, n - 1);
      DayGridUnfolds(r, last, limit);
      OneMoreOfSteps(cursor, step, n - 1);
      FreeSlots.Associates(Steps(cursor, step, n - 1), [last], DayGrid(r, last + step, limit));
    }
  }

  lemma {:induction false} AllFreeStay(r: SlotRequest, busy: seq<Interval>, xs: seq<int>)
    requires forall i :: 0 <= i < |xs| ==> IsFree(r, busy, xs[i])
    ensures Filter(r, busy, xs) == xs
  {
    if xs != [] {
      AllFreeStay(r, busy, xs[1..]);
      assert xs == [xs[0]] + xs[1..];
      FilterUnfolds(r, busy, xs[0], xs[1..]);
    }
  }

  /** Half an hour at 21:00 on a Monday with working hours from 06:00 to 22:00. */
  const EVENING := 4 * DAY + 1260 * MINUTE
  const LONG_DAY := SameDayRequest(EVENING, 30, 360, 1320, 0)
  const EVENING_BUSY := [[Interval(EVENING, EVENING + 30 * MINUTE)]]

  lemma EarlierStartsAreFree(s: int)
    requires s + 30 * MINUTE <= EVENING
    ensures IsFree(LONG_DAY, Busy(LONG_DAY, EVENING_BUSY), s) && KeepsAllBuffers(LONG_DAY, EVENING_BUSY, s)
  {
    assert Raw(EVENING_BUSY) == [Interval(EVENING, EVENING + 30 * MINUTE)] by {
      assert EVENING_BUSY[..0] == [];
    }
    FreeMeansBuffered(LONG_DAY, EVENING_BUSY, s);
    hide Busy, IsFree;
  }

  /** The first 50 free starts of that day end at 18:15. */
  lemma LongDayIsCut()
    ensures ValidRequest(LONG_DAY)
    ensures Take(FreeStarts(LONG_DAY, EVENING_BUSY), 50) == Steps(4 * DAY + 360 * MINUTE, 15 * MINUTE, 50)
  {
    var r, busy := LONG_DAY, Busy(LONG_DAY, EVENING_BUSY);
    var six, limit := 4 * DAY + 360 * MINUTE, 4 * DAY + 1320 * MINUTE;
    assert DayOf(EVENING) == 4 && DayOf(LocalStart(r)) == 4 && DayOf(LocalEnd(r)) == 5 && Weekday(4) == 0;
    assert six / MINUTE == 4 * 1440 + 360 && six % MINUTE == 0 && (4 * 1440 + 360) % 60 % 15 == 0;
    assert FirstStart(r, 4) == six && Limit(r, 4) == limit && DayCandidates(r, 4) == DayGrid(r, six, limit);
    var first := Steps(six, 15 * MINUTE, 50);
    forall i | 0 <= i < 50
      ensures IsFree(r, busy, first[i])
    {
      EarlierStartsAreFree(first[i]);
    }
    DayGridRuns(r, six, limit, 50);
    GridUnfolds(r, 4);
    var rest := DayGrid(r, six + 50 * (15 * MINUTE), limit);
    hide DayGrid, Grid, DayCandidates, Filter, IsFree, Busy;
    FilterSplits(r, busy, first + rest, Grid(r, 5));
    FilterSplits(r, busy, first, rest);
    AllFreeStay(r, busy, first);
    assert FreeStarts(r, EVENING_BUSY) == first + Filter(r, busy, rest) + Filter(r, busy, Grid(r, 5));
  }

  /** 20:00 is free, but never offered: the first alternative is at 18:15 or earlier. */
  lemma LateTargetMissesNearStarts()
    ensures ValidRequest(LONG_DAY) && EVENING - 60 * MINUTE in FreeStarts(LONG_DAY, EVENING_BUSY)
    ensures var result := DayAlternatives(LONG_DAY, EVENING_BUSY, EVENING);
            forall i :: 0 <= i < |result| ==> Abs(result[i] - EVENING) > Abs(EVENING - 60 * MINUTE - EVENING)
  {
    LongDayIsCut();
    var eight := EVENING - 60 * MINUTE;
    EarlierStartsAreFree(eight);
    EightIsOnGrid();
    FreeStartsOnGrid(LONG_DAY, EVENING_BUSY, eight);
    hide FreeStarts, OnGrid, KeepsAllBuffers;
    var result := DayAlternatives(LONG_DAY, EVENING_BUSY, EVENING);
    forall i | 0 <= i < |result|
      ensures Abs(result[i] - EVENING) > Abs(eight - EVENING)
    {
      AlternativesAreNearest(Steps(4 * DAY + 360 * MINUTE, 15 * MINUTE, 50), EVENING, 30 * MINUTE, result[i]);
    }
  }

  lemma EightIsOnGrid()
    requires ValidRequest(LONG_DAY)
    ensures OnGrid(LONG_DAY, EVENING - 60 * MINUTE)
  {
    var r := LONG_DAY;
    assert DayOf(EVENING) == 4 && DayOf(LocalStart(r)) == 4 && DayOf(EVENING - 60 * MINUTE) == 4 && Weekday(4) == 0;
    var six := 4 * DAY + 360 * MINUTE;
    assert six / MINUTE == 4 * 1440 + 360 && six % MINUTE == 0 && (4 * 1440 + 360) % 60 % 15 == 0;
    assert FirstStart(r, 4) == six;
    assert EVENING - 60 * MINUTE - six == 56 * (15 * MINUTE);
  }
}
