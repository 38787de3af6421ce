/** Waiting clocks of conversation threads, and automatic follow-up drafts. */
module Conversations {
  import opened Common
  import opened BusinessDays
  import opened StableSort

  datatype Status = ToReply | AwaitingReply | Fyi | Actioned

  /** The columns of a thread row that the clocks and the follow-ups read. */
  datatype Thread = Thread(
    status: Status,
    lastMessageId: Option<string>,
    waitingSince: Option<int>,
    dueAt: Option<int>,
    snoozedUntil: Option<int>,
    followupDraftId: Option<string>)

  type Threads = map<string, Thread>

  /** The owner's day settings. */
  datatype DaySettings = DaySettings(toReply: Option<int>, awaitingReply: Option<int>)

  function Lookup(t: Threads, id: string): Option<Thread> {
    if id in t then Some(t[id]) else None
  }

  function ProposedStatus(status: Option<Status>, needsReply: bool): Status {
    if status.Some? then status.value else if needsReply then ToReply else Fyi
  }

  predicate Waits(status: Status) {
    status == ToReply || status == AwaitingReply
  }

  function DueDays(status: Status, days: DaySettings): Option<int> {
    match status
    case ToReply => days.toReply
    case AwaitingReply => days.awaitingReply
    case _ => None
  }

  function DeadlineAfter(start: int, days: Option<int>): Option<int> {
    if days == None then None else Some(Deadline(start, Max1(days.value)))
  }

  /** The deadline that many working days after the start, at least one; none without a setting. */
  ghost function DueIn(start: int, days: Option<int>): Option<int> {
    match days
    case None => None
    case Some(n) => Some(Deadline(start, if n < 1 then 1 else n))
  }

  // ----- the transactions -----

  predicate SameState(row: Option<Thread>, messageId: string, status: Status) {
    row.Some? && row.value.status == status && row.value.lastMessageId.GetOr("") == messageId
  }

  function Analysed(row: Option<Thread>, messageId: string, status: Status, days: DaySettings, now: int): Thread {
    var same := SameState(row, messageId, status);
    var waiting := if same && row.value.waitingSince.Some? then row.value.waitingSince
                   else if Waits(status) then Some(now) else None;
    Thread(status, Some(messageId), waiting,
           DeadlineAfter(waiting.GetOr(now), DueDays(status, days)),
           if same then row.value.snoozedUntil else None,
           if same && status == AwaitingReply then row.value.followupDraftId else None)
  }

  /** A replay of a send that the row already shows is ignored. */
  predicate AlreadySent(row: Option<Thread>, source: Option<string>) {
    SameState(row, source.GetOr(""), AwaitingReply)
  }

  function Sent(row: Option<Thread>, source: Option<string>, awaitingReply: Option<int>, now: int): Thread {
    if AlreadySent(row, source) then row.value
    else
      var last := if source == None && row.Some? then row.value.lastMessageId else source;
      Thread(AwaitingReply, last, Some(now), DeadlineAfter(now, awaitingReply), None, None)
  }

  class ConversationStore {
    var threads: Threads

    constructor ()
      ensures threads == map[]
    {
      threads := map[];
    }

    method RecordAnalysis(
      threadId: string, messageId: string, proposed: Option<Status>, needsReply: bool, days: DaySettings, now: int)
      modifies this
      ensures threads == old(threads)[threadId :=
                Analysed(Lookup(old(threads), threadId), messageId, ProposedStatus(proposed, needsReply), days, now)]
      ensures var row := threads[threadId];
              var since := if row.waitingSince.Some? then row.waitingSince.value else now;
              && row.lastMessageId == Some(messageId)
              && row.status == (if proposed.Some? then proposed.value else if needsReply then ToReply else Fyi)
              && row.dueAt == match row.status
                              case ToReply => DueIn(since, days.toReply)
                              case AwaitingReply => DueIn(since, days.awaitingReply)
                              case _ => None
    {
      var status := Fyi;
      if proposed.Some? {
        status := proposed.value;
      } else if needsReply {
        status := ToReply;
      }
      var same := threadId in threads && threads[threadId].status == status
                  && threads[threadId].lastMessageId.GetOr("") == messageId;
      var waiting := None;
      if same && threads[threadId].waitingSince.Some? {
        waiting := threads[threadId].waitingSince;
      } else if status == ToReply || status == AwaitingReply {
        waiting := Some(now);
      }
      var dueDays := if status == ToReply then days.toReply else if status == AwaitingReply then days.awaitingReply else None;
      var due := AddBusinessDays(waiting.GetOr(now), dueDays);
      var snoozed, followup := None, None;
      if same {
        snoozed := threads[threadId].snoozedUntil;
        if status == AwaitingReply {
          followup := threads[threadId].followupDraftId;
        }
      }
      threads := threads[threadId := Thread(status, Some(messageId), waiting, due, snoozed, followup)];
    }

    method MarkOutboundSent(threadId: string, source: Option<string>, awaitingReply: Option<int>, now: int)
      modifies this
      ensures threads == old(threads)[threadId := Sent(Lookup(old(threads), threadId), source, awaitingReply, now)]
      ensures if threadId in old(threads) && old(threads)[threadId].status == AwaitingReply
                 && old(threads)[threadId].lastMessageId.GetOr("") == source.GetOr("")
              then threads == old(threads)
              else
                var last := if source == None && threadId in old(threads) then old(threads)[threadId].lastMessageId else source;
                threads[threadId] == Thread(AwaitingReply, last, Some(now), DueIn(now, awaitingReply), None, None)
    {
      var due := AddBusinessDays(now, awaitingReply);
      if threadId in threads
         && threads[threadId].status == AwaitingReply
         && threads[threadId].lastMessageId.GetOr("") == source.GetOr("")
      {
        assert threads == threads[threadId := threads[threadId]];
        return;
      }
      var last := source;
      if threadId in threads && source == None {
        last := threads[threadId].lastMessageId;
      }
      threads := threads[threadId := Thread(AwaitingReply, last, Some(now), due, None, None)];
    }

    /** Only a future time snoozes; no time ends the snooze. */
    method Snooze(threadId: string, until: Option<int>, now: int) returns (r: Result<Thread>)
      modifies this
      ensures if until.Some? && until.value <= now then r == Failure(Invalid) && threads == old(threads)
              else if threadId !in old(threads) then r == Failure(NotFound) && threads == old(threads)
              else threads == old(threads)[threadId := old(threads)[threadId].(snoozedUntil := until)]
                   && r == Success(threads[threadId])
    {
      if until.Some? && until.value <= now {
        return Failure(Invalid);
      }
      if threadId !in threads {
        return Failure(NotFound);
      }
      threads := threads[threadId := threads[threadId].(snoozedUntil := until)];
      r := Success(threads[threadId]);
    }

    method MarkFollowupDraft(threadId: string, draftId: string)
      modifies this
      ensures threads == if threadId in old(threads)
                         then old(threads)[threadId := old(threads)[threadId].(followupDraftId := Some(draftId))]
                         else old(threads)
    {
      if threadId in threads {
        threads := threads[threadId := threads[threadId].(followupDraftId := Some(draftId))];
      }
    }
  }

  // ----- the clocks stand still -----

  /** An analysis of a message, or a recorded send, of one thread. */
  datatype Event = Analysis(messageId: string, status: Status, now: int) | Send(source: Option<string>, now: int)

  function Next(row: Option<Thread>, days: DaySettings, event: Event): Thread {
    match event
    case Analysis(m, status, now) => Analysed(row, m, status, days, now)
    case Send(source, now) => Sent(row, source, days.awaitingReply, now)
  }

  function After(row: Thread, days: DaySettings, events: seq<Event>): Thread {
    if events == [] then row else Next(Some(After(row, days, events[..|events| - 1])), days, events[|events| - 1])
  }

  /** Another analysis of the last message with the same result, or a replay of the send that
      the row shows. */
  predicate Repeats(row: Thread, event: Event) {
    match event
    case Analysis(m, status, _) => row.status == status && row.lastMessageId.GetOr("") == m
    case Send(source, _) => row.status == AwaitingReply && source.Some? && Some(source.value) == row.lastMessageId
  }

  /** The clock of a row under the current day settings. */
  predicate ClockOk(row: Thread, days: DaySettings) {
    && (row.waitingSince.Some? <==> Waits(row.status))
    && row.dueAt == DeadlineAfter(row.waitingSince.GetOr(0), DueDays(row.status, days))
  }

  /** Every stored row has such a clock, while the day settings stay the same. */
  lemma EventsSetClocks(row: Option<Thread>, days: DaySettings, event: Event)
    requires row.Some? ==> ClockOk(row.value, days)
    ensures ClockOk(Next(row, days, event), days)
  {
  }

  /** Over any sequence of repeated analyses and replayed sends, waiting time, due time,
      snooze and follow-up draft never move. */
  lemma {:induction false} RepeatsKeepTheClock(row: Thread, days: DaySettings, events: seq<Event>)
    requires ClockOk(row, days)
    requires forall i :: 0 <= i < |events| ==> Repeats(row, events[i])
    requires row.followupDraftId.Some? ==> row.status == AwaitingReply
    ensures var row' := After(row, days, events);
            && row'.waitingSince == row.waitingSince && row'.dueAt == row.dueAt
            && row'.snoozedUntil == row.snoozedUntil && row'.followupDraftId == row.followupDraftId
            && row'.status == row.status
            && row'.lastMessageId.GetOr("") == row.lastMessageId.GetOr("")
  {
    if events != [] {
      RepeatsKeepTheClock(row, days, events[..|events| - 1]);
      assert Repeats(row, events[|events| - 1]);
    }
  }

  /** When a recorded send leaves the row as it is at its second delivery. The source id
      decides it: with one the replay is always ignored, without one only if the row has no
      last message id either. */
  lemma ReplayIsIgnoredExactly(row: Option<Thread>, source: Option<string>, awaitingReply: Option<int>, now: int, later: int)
    requires now < later
    ensures var sent := Sent(row, source, awaitingReply, now);
            Sent(Some(sent), source, awaitingReply, later) == sent <==>
              source.Some? || row == None || OrNone(row.value.lastMessageId) == None
  {
  }

  /** A replay without a source id postpones the deadline of a thread that has a last message. */
  lemma ReplayWithoutSourcePostpones(row: Thread, now: int, later: int)
    requires OrNone(row.lastMessageId).Some? && now < later
    ensures var sent := Sent(Some(row), None, Some(1), now);
            Sent(Some(sent), None, Some(1), later).waitingSince == Some(later) && sent.waitingSince == Some(now)
  {
  }

  /** A new message ends snooze and follow-up, and restarts the clock of a waiting thread. */
  lemma NewMessageRestartsTheClock(row: Option<Thread>, messageId: string, status: Status, days: DaySettings, now: int)
    requires row.Some? ==> row.value.status != status || row.value.lastMessageId.GetOr("") != messageId
    ensures var row' := Analysed(row, messageId, status, days, now);
            && row'.snoozedUntil == None && row'.followupDraftId == None
            && row'.waitingSince == (if status in {ToReply, AwaitingReply} then Some(now) else None)
  {
  }

  // ----- follow-up drafts -----

  predicate IsDue(row: Thread, now: int) {
    && Waits(row.status) && row.dueAt.Some? && row.dueAt.value <= now
    && (row.snoozedUntil == None || row.snoozedUntil.value <= now)
  }

  predicate WantsFollowup(row: Thread, now: int) {
    IsDue(row, now) && row.status == AwaitingReply && OrNone(row.followupDraftId) == None
  }

  function DueAt(t: Threads): string -> int {
    (id: string) => if id in t && t[id].dueAt.Some? then t[id].dueAt.value else 0
  }

  function DueIds(t: Threads, ids: seq<string>, now: int): seq<string> {
    if ids == [] then []
    else
      var before := DueIds(t, ids[..|ids| - 1], now);
      var id := ids[|ids| - 1];
      if id in t && IsDue(t[id], now) then before + [id] else before
  }

  /** The due threads of a listing of the table, earliest deadline first. */
  function DueFollowups(t: Threads, ids: seq<string>, now: int, limit: int): seq<string> {
    var all := SortBy(DueAt(t), DueIds(t, ids, now));
    var cap := if limit < 1 then 1 else if limit > 200 then 200 else limit;
    if |all| <= cap then all else all[..cap]
  }

  /** The thread gets a draft: `draft` names the created one, None if the source message is
      gone or drafting failed. */
  predicate GetsDraft(row: Thread, draft: Option<string>) {
    row.status == AwaitingReply && OrNone(row.followupDraftId) == None && draft.Some?
  }

  function Marked(t: Threads, due: seq<string>, draft: string -> Option<string>): Threads {
    if due == [] then t
    else
      var before := Marked(t, due[..|due| - 1], draft);
      var id := due[|due| - 1];
      if id in t && id in before && GetsDraft(t[id], draft(id)) then before[id := before[id].(followupDraftId := draft(id))]
      else before
  }

  function DraftCount(t: Threads, due: seq<string>, draft: string -> Option<string>): nat {
    if due == [] then 0
    else
      var id := due[|due| - 1];
      DraftCount(t, due[..|due| - 1], draft) + if id in t && GetsDraft(t[id], draft(id)) then 1 else 0
  }

  lemma MarkedNext(t: Threads, due: seq<string>, draft: string -> Option<string>, n: nat)
    requires n < |due|
    ensures var before := Marked(t, due[..n], draft);
            var id := due[n];
            Marked(t, due[..n + 1], draft) ==
              if id in t && id in before && GetsDraft(t[id], draft(id)) then before[id := before[id].(followupDraftId := draft(id))]
              else before
    ensures DraftCount(t, due[..n + 1], draft) ==
              DraftCount(t, due[..n], draft) + if due[n] in t && GetsDraft(t[due[n]], draft(due[n])) then 1 else 0
  {
    assert due[..n + 1][..n] == due[..n];
  }

  /** One uninterrupted follow-up cycle. The due rows are read once, at its start. */
  method ReconcileFollowups(
    store: ConversationStore, ids: seq<string>, now: int, limit: int, draft: string -> Option<string>)
    returns (due: seq<string>, created: nat)
    modifies store
    ensures due == DueFollowups(old(store.threads), ids, now, limit)
    ensures store.threads == Marked(old(store.threads), due, draft)
    ensures created == DraftCount(old(store.threads), due, draft)
    ensures NoDuplicates(ids) ==> EarliestDue(old(store.threads), ids, now, limit, due)
  {
    if NoDuplicates(ids) {
      DueFollowupsAreEarliest(store.threads, ids, now, limit);
    }
    hide EarliestDue;
    var t := store.threads;
    due := DueFollowups(t, ids, now, limit);
    created := 0;
    assert due[..0] == [] && due[..|due|] == due;
    assert Marked(t, [], draft) == t && DraftCount(t, [], draft) == 0;
    hide DueFollowups, Marked, DraftCount;
    for n := 0 to |due|
      invariant store.threads == Marked(t, due[..n], draft) && store.threads.Keys == t.Keys
      invariant created == DraftCount(t, due[..n], draft)
    {
      var id := due[n];
      MarkedNext(t, due, draft, n);
      if id !in t || t[id].status != AwaitingReply || OrNone(t[id].followupDraftId).Some? {
        continue;
      }
      if draft(id).Some? {
        store.MarkFollowupDraft(id, draft(id).value);
        created := created + 1;
      }
    }
  }

  /** A cycle gives a draft to every due thread that waits without one, and changes nothing else. */
  lemma {:induction false} MarkedExactly(t: Threads, due: seq<string>, draft: string -> Option<string>, id: string)
    requires id in t
    ensures id in Marked(t, due, draft)
    ensures Marked(t, due, draft)[id] ==
              if id in due && t[id].status == AwaitingReply && t[id].followupDraftId.GetOr("") == "" && draft(id).Some?
              then t[id].(followupDraftId := draft(id)) else t[id]
  {
    if due != [] {
      assert due == due[..|due| - 1] + [due[|due| - 1]];
      MarkedExactly(t, due[..|due| - 1], draft, id);
    }
  }

  /** The due threads that get a draft. */
  ghost function DraftedThreads(t: Threads, due: seq<string>, draft: string -> Option<string>): set<string> {
    set id | id in due && id in t && t[id].status == AwaitingReply && t[id].followupDraftId.GetOr("") == "" && draft(id).Some?
  }

  lemma OneMoreDrafted(t: Threads, due: seq<string>, id: string, draft: string -> Option<string>)
    requires id !in due
    ensures |DraftedThreads(t, due + [id], draft)| ==
              |DraftedThreads(t, due, draft)| + if id in t && GetsDraft(t[id], draft(id)) then 1 else 0
  {
    var before, after := DraftedThreads(t, due, draft), DraftedThreads(t, due + [id], draft);
    forall x
      ensures x in after <==> x in before || (x == id && id in t && GetsDraft(t[id], draft(id)))
      ensures id !in before
    {
    }
    hide DraftedThreads;
    if id in t && GetsDraft(t[id], draft(id)) {
      assert after == before + {id};
    } else {
      assert after == before;
    }
  }

  /** The count of a cycle is the number of those threads. */
  lemma {:induction false} DraftsAreCounted(t: Threads, due: seq<string>, draft: string -> Option<string>)
    requires NoDuplicates(due)
    ensures DraftCount(t, due, draft) == |DraftedThreads(t, due, draft)|
  {
    if due == [] {
      assert DraftedThreads(t, [], draft) == {};
    } else {
      hide DraftedThreads, GetsDraft;
      var init, last := due[..|due| - 1], due[|due| - 1];
      assert due == init + [last] && last !in init;
      DraftsAreCounted(t, init, draft);
      OneMoreDrafted(t, init, last, draft);
    }
  }

  lemma {:induction false} DueIdsAreDue(t: Threads, ids: seq<string>, now: int, id: string)
    ensures id in DueIds(t, ids, now) <==> id in ids && id in t && IsDue(t[id], now)
  {
    if ids != [] {
      assert ids == ids[..|ids| - 1] + [ids[|ids| - 1]];
      DueIdsAreDue(t, ids[..|ids| - 1], now, id);
    }
  }

  /** Nobody is reminded before the deadline or during a snooze. */
  lemma FollowupsAreDue(t: Threads, ids: seq<string>, now: int, limit: int, id: string)
    requires id in DueFollowups(t, ids, now, limit)
    ensures id in ids && DueRow(t, id, now)
  {
    DueIdsAreDue(t, ids, now, id);
    SortByKeepsElements(DueAt(t), DueIds(t, ids, now), id);
  }

  lemma {:induction false} DueIdsOnce(t: Threads, ids: seq<string>, now: int)
    requires NoDuplicates(ids)
    ensures NoDuplicates(DueIds(t, ids, now))
  {
    if ids != [] {
      var init, last := ids[..|ids| - 1], ids[|ids| - 1];
      DueIdsOnce(t, init, now);
      DueIdsAreDue(t, init, now, last);
    }
  }

  /** The row is due: it waits, its deadline has passed and no snooze runs. */
  ghost predicate DueRow(t: Threads, id: string, now: int) {
    && id in t && t[id].status in {ToReply, AwaitingReply}
    && t[id].dueAt.Some? && t[id].dueAt.value <= now
    && (t[id].snoozedUntil.Some? ==> t[id].snoozedUntil.value <= now)
  }

  /** Both rows have a deadline, and the first one's is not the later. */
  ghost predicate NotLater(t: Threads, first: string, second: string) {
    && first in t && t[first].dueAt.Some? && second in t && t[second].dueAt.Some?
    && t[first].dueAt.value <= t[second].dueAt.value
  }

  /** The listed follow-ups are the due threads with the earliest deadlines, each once, earliest
      first, as many as there are or as the limit allows. */
  ghost predicate EarliestDue(t: Threads, ids: seq<string>, now: int, limit: int, due: seq<string>) {
    var most := if limit < 1 then 1 else if limit > 200 then 200 else limit;
    && NoDuplicates(due) && |due| <= most
    && (forall i :: 0 <= i < |due| ==> due[i] in ids && DueRow(t, due[i], now))
    && (forall i, j :: 0 <= i < j < |due| ==> NotLater(t, due[i], due[j]))
    && (forall id :: id in ids && DueRow(t, id, now) && id !in due ==>
          |due| == most && forall i :: 0 <= i < |due| ==> NotLater(t, due[i], id))
  }

  /** The due threads, sorted but not cut. */
  lemma AllDueSorted(t: Threads, ids: seq<string>, now: int)
    requires NoDuplicates(ids)
    ensures var all := SortBy(DueAt(t), DueIds(t, ids, now));
            && NoDuplicates(all)
            && (forall id :: id in all <==> id in ids && DueRow(t, id, now))
            && (forall i, j :: 0 <= i < j < |all| ==> NotLater(t, all[i], all[j]))
  {
    var listed := DueIds(t, ids, now);
    var all := SortBy(DueAt(t), listed);
    DueIdsOnce(t, ids, now);
    SortByIsSort(DueAt(t), listed);
    PermutationKeepsNoDuplicates(listed, all);
    forall id
      ensures id in all <==> id in ids && DueRow(t, id, now)
    {
      SortByKeepsElements(DueAt(t), listed, id);
      DueIdsAreDue(t, ids, now, id);
    }
    hide DueIds, SortBy, DueRow;
    forall i, j | 0 <= i < j < |all|
      ensures NotLater(t, all[i], all[j])
    {
      assert DueAt(t)(all[i]) <= DueAt(t)(all[j]);
      HasDeadline(t, all[i], now);
      HasDeadline(t, all[j], now);
    }
  }

  lemma HasDeadline(t: Threads, id: string, now: int)
    requires DueRow(t, id, now)
    ensures id in t && t[id].dueAt.Some? && DueAt(t)(id) == t[id].dueAt.value
  {
  }

  lemma DueFollowupsAreEarliest(t: Threads, ids: seq<string>, now: int, limit: int)
    requires NoDuplicates(ids)
    ensures EarliestDue(t, ids, now, limit, DueFollowups(t, ids, now, limit))
  {
    AllDueSorted(t, ids, now);
    var all := SortBy(DueAt(t), DueIds(t, ids, now));
    var due := DueFollowups(t, ids, now, limit);
    hide DueIds, SortBy, DueRow, NotLater;
    assert forall i :: 0 <= i < |due| ==> due[i] == all[i];
    forall id | id in ids && DueRow(t, id, now) && id !in due
      ensures |due| < |all| && forall i :: 0 <= i < |due| ==> NotLater(t, due[i], id)
    {
      var j :| 0 <= j < |all| && all[j] == id;
      assert j < |due| ==> due[j] == id;
    }
  }

  /** Every thread that waits for a reply, is due and has no follow-up yet gets its draft, if
      drafting succeeds and the limit does not go to threads that are due at least as long. */
  lemma EarliestGetDrafts(t: Threads, ids: seq<string>, now: int, limit: int, draft: string -> Option<string>, id: string)
    requires NoDuplicates(ids) && id in ids && DueRow(t, id, now)
    requires t[id].status == AwaitingReply && t[id].followupDraftId.GetOr("") == "" && draft(id).Some?
    ensures var due := DueFollowups(t, ids, now, limit);
            var t' := Marked(t, due, draft);
            || (id in t' && t'[id] == t[id].(followupDraftId := draft(id)))
            || (&& |due| == (if limit < 1 then 1 else if limit > 200 then 200 else limit)
                && forall i :: 0 <= i < |due| ==> NotLater(t, due[i], id))
  {
    var due := DueFollowups(t, ids, now, limit);
    DueFollowupsAreEarliest(t, ids, now, limit);
    MarkedExactly(t, due, draft, id);
    hide DueFollowups, Marked, DueRow, NotLater;
  }

  /** Cycles that follow each other never draft twice: the next cycle creates no draft for a
      thread that this one gave a draft. */
  lemma {:induction false} NextCycleCreatesNothing(
    t: Threads, due: seq<string>, draft: string -> Option<string>, next: seq<string>, again: string -> Option<string>)
    requires forall id :: id in next ==> id in due && OrNone(draft(id)).Some?
    ensures DraftCount(Marked(t, due, draft), next, again) == 0
  {
    if next != [] {
      var id := next[|next| - 1];
      assert next == next[..|next| - 1] + [id];
      NextCycleCreatesNothing(t, due, draft, next[..|next| - 1], again);
      MarkedKeys(t, due, draft);
      if id in t {
        MarkedExactly(t, due, draft, id);
      }
    }
  }

  lemma {:induction false} MarkedKeys(t: Threads, due: seq<string>, draft: string -> Option<string>)
    ensures Marked(t, due, draft).Keys == t.Keys
  {
    if due != [] {
      MarkedKeys(t, due[..|due| - 1], draft);
    }
  }

  /** One thread, and the cycles that picked it and still wait for its draft text. */
  datatype World = World(row: Thread, picked: nat)

  /** A created draft gets a fresh id; `suffix` is its random part. */
  datatype Step =
    | Happens(event: Event)
    | Snoozed(until: Option<int>)
    | Pick(now: int)
    | Finish(suffix: string, created: bool)

  function Do(w: World, days: DaySettings, step: Step): World {
    match step
    case Happens(event) => w.(row := Next(Some(w.row), days, event))
    case Snoozed(until) => w.(row := w.row.(snoozedUntil := until))
    case Pick(now) => if WantsFollowup(w.row, now) then w.(picked := w.picked + 1) else w
    case Finish(suffix, created) =>
      if w.picked == 0 then w
      else World(if created then w.row.(followupDraftId := Some("dr_" + suffix)) else w.row, w.picked - 1)
  }

  function Run(w: World, days: DaySettings, steps: seq<Step>): World {
    if steps == [] then w else Do(Run(w, days, steps[..|steps| - 1]), days, steps[|steps| - 1])
  }

  predicate Creates(w: World, step: Step) {
    step.Finish? && step.created && w.picked > 0
  }

  function MessageOf(event: Event): string {
    match event
    case Analysis(m, _, _) => m
    case Send(source, _) => source.GetOr("")
  }

  /** An event begins an episode of waiting for a reply: the thread now waits, and it is not
      the message and state that the row already showed. */
  predicate Begins(row: Thread, days: DaySettings, event: Event) {
    Next(Some(row), days, event).status == AwaitingReply && !SameState(Some(row), MessageOf(event), AwaitingReply)
  }

  predicate BeginsEpisode(w: World, days: DaySettings, step: Step) {
    step.Happens? && Begins(w.row, days, step.event)
  }

  /** A cycle picks the thread while another one still works on it. */
  predicate Overlapping(w: World, step: Step) {
    step.Pick? && w.picked > 0 && WantsFollowup(w.row, step.now)
  }

  function Creations(w: World, days: DaySettings, steps: seq<Step>): nat {
    if steps == [] then 0
    else
      var before := steps[..|steps| - 1];
      Creations(w, days, before) + if Creates(Run(w, days, before), steps[|steps| - 1]) then 1 else 0
  }

  function Episodes(w: World, days: DaySettings, steps: seq<Step>): nat {
    if steps == [] then 0
    else
      var before := steps[..|steps| - 1];
      Episodes(w, days, before) + if BeginsEpisode(Run(w, days, before), days, steps[|steps| - 1]) then 1 else 0
  }

  function Overlaps(w: World, days: DaySettings, steps: seq<Step>): nat {
    if steps == [] then 0
    else
      var before := steps[..|steps| - 1];
      Overlaps(w, days, before) + if Overlapping(Run(w, days, before), steps[|steps| - 1]) then 1 else 0
  }

  /** While a thread waits for a reply, an event begins an episode exactly when it moves the
      waiting clock, and then it starts the clock now; any other event leaves the clock and
      the follow-up draft alone. */
  lemma EpisodesAreClockRestarts(row: Thread, days: DaySettings, event: Event)
    requires ClockOk(row, days) && (row.waitingSince.Some? ==> row.waitingSince.value < event.now)
    requires Next(Some(row), days, event).status == AwaitingReply
    ensures var row' := Next(Some(row), days, event);
            && (Begins(row, days, event) <==> row'.waitingSince != row.waitingSince)
            && (if Begins(row, days, event) then row'.waitingSince == Some(event.now) && row'.followupDraftId == None
                else row'.waitingSince == row.waitingSince && row'.followupDraftId == row.followupDraftId)
  {
  }

  /** Drafts that may still be created in the current episode. */
  function Open(w: World): nat {
    if w.picked > 0 then w.picked
    else if w.row.status == AwaitingReply && OrNone(w.row.followupDraftId) == None then 1 else 0
  }

  lemma StepSpends(w: World, days: DaySettings, step: Step)
    ensures Open(Do(w, days, step)) + (if Creates(w, step) then 1 else 0)
         <= Open(w) + (if BeginsEpisode(w, days, step) then 1 else 0) + (if Overlapping(w, step) then 1 else 0)
  {
  }

  /** Over every run the automatic drafts of a thread never exceed one for the episode it is
      in, one for every episode that begins, and one for every pick that overlaps another
      cycle. */
  lemma {:induction false} DraftsAreBounded(w: World, days: DaySettings, steps: seq<Step>)
    requires w.picked == 0
    ensures Creations(w, days, steps) + Open(Run(w, days, steps))
         <= Open(w) + Episodes(w, days, steps) + Overlaps(w, days, steps)
    ensures Open(w) <= 1
  {
    hide Do, Creates, BeginsEpisode, Overlapping;
    if steps != [] {
      var before := steps[..|steps| - 1];
      DraftsAreBounded(w, days, before);
      StepSpends(Run(w, days, before), days, steps[|steps| - 1]);
    }
  }

  /** Without overlapping cycles: at most one draft for each episode. */
  lemma OneDraftPerEpisode(w: World, days: DaySettings, steps: seq<Step>)
    requires w.picked == 0 && Overlaps(w, days, steps) == 0
    ensures Creations(w, days, steps) <= Episodes(w, days, steps) + if w.row.status == AwaitingReply then 1 else 0
  {
    DraftsAreBounded(w, days, steps);
  }

  lemma OneMoreStep(w: World, days: DaySettings, before: seq<Step>, step: Step)
    ensures Run(w, days, before + [step]) == Do(Run(w, days, before), days, step)
    ensures Creations(w, days, before + [step]) ==
              Creations(w, days, before) + if Creates(Run(w, days, before), step) then 1 else 0
    ensures Episodes(w, days, before + [step]) ==
              Episodes(w, days, before) + if BeginsEpisode(Run(w, days, before), days, step) then 1 else 0
    ensures Overlaps(w, days, before + [step]) ==
              Overlaps(w, days, before) + if Overlapping(Run(w, days, before), step) then 1 else 0
  {
    assert (before + [step])[..|before|] == before;
  }

  lemma NoSteps(w: World, days: DaySettings)
    ensures Run(w, days, []) == w
    ensures Creations(w, days, []) == 0 && Episodes(w, days, []) == 0 && Overlaps(w, days, []) == 0
  {
  }

  const WAITING := Thread(AwaitingReply, Some("m"), Some(0), Some(DAY), None, None)
  const ONE_DAY := DaySettings(None, Some(1))

  lemma PickTwiceFinishTwice(drafted: Thread)
    requires drafted == WAITING.(followupDraftId := Some("dr_" + "a"))
    ensures Do(World(WAITING, 0), ONE_DAY, Pick(DAY)) == World(WAITING, 1)
    ensures Do(World(WAITING, 1), ONE_DAY, Pick(DAY)) == World(WAITING, 2)
    ensures Do(World(WAITING, 2), ONE_DAY, Finish("a", true)) == World(drafted, 1)
    ensures Creates(World(WAITING, 2), Finish("a", true)) && Creates(World(drafted, 1), Finish("b", true))
    ensures !Overlapping(World(WAITING, 0), Pick(DAY)) && Overlapping(World(WAITING, 1), Pick(DAY))
  {
  }

  /** Two overlapping cycles do create two drafts in one episode: the bound is reached. */
  lemma OverlappingCyclesCreateTwo()
    ensures exists w: World, days: DaySettings, steps: seq<Step> ::
              w.picked == 0 && Creations(w, days, steps) == 2 && Episodes(w, days, steps) == 0 && Overlaps(w, days, steps) == 1
  {
    var w := World(WAITING, 0);
    var two := [] + [Pick(DAY)] + [Pick(DAY)];
    var three := two + [Finish("a", true)];
    PickTwiceFinishTwice(WAITING.(followupDraftId := Some("dr_" + "a")));
    hide Do, Run, Creations, Episodes, Overlaps, WantsFollowup;
    NoSteps(w, ONE_DAY);
    OneMoreStep(w, ONE_DAY, [], Pick(DAY));
    OneMoreStep(w, ONE_DAY, [] + [Pick(DAY)], Pick(DAY));
    OneMoreStep(w, ONE_DAY, two, Finish("a", true));
    OneMoreStep(w, ONE_DAY, three, Finish("b", true));
    assert Creations(w, ONE_DAY, three + [Finish("b", true)]) == 2;
  }

  /** A cycle picks a thread exactly if it waits for a reply, its deadline has passed, no snooze
      runs and it has no follow-up draft. */
  lemma PicksExactly(w: World, days: DaySettings, now: int)
    ensures Do(w, days, Pick(now)) != w <==>
              && w.row.status == AwaitingReply && w.row.dueAt.Some? && w.row.dueAt.value <= now
              && (w.row.snoozedUntil.Some? ==> w.row.snoozedUntil.value <= now)
              && w.row.followupDraftId.GetOr("") == ""
  {
  }

  /** A follow-up is due only when its deadline has passed and no snooze runs. */
  lemma PicksOnlyDueThreads(w: World, days: DaySettings, now: int)
    requires ClockOk(w.row, days) && Do(w, days, Pick(now)) != w
    ensures w.row.waitingSince.Some? && days.awaitingReply.Some?
    ensures Deadline(w.row.waitingSince.value, Max1(days.awaitingReply.value)) <= now
    ensures w.row.snoozedUntil == None || w.row.snoozedUntil.value <= now
  {
  }
}
