/** One execution at a time: the service's own code over the approval store and the remote
    calendar, the run of the protocol it amounts to, and what serial executions keep. */
module CalendarService {
  import opened Common
  import opened CalendarEvents
  import opened CalendarApprovals
  import opened CalendarProtocol
  import opened CalendarSafety

  /** What goes wrong on the network during one execution. */
  datatype Fault = NoFault | Unreachable | RequestLost | ResponseLost

  // ----- one execution, as a value -----

  /** The conflict check blocks the execution. */
  predicate Blocked(server: Server, p: Proposal, listing: seq<string>) {
    p.action != Delete && !p.allowConflict && ConflictsIn(server, p.calendar, listing, Excluded(p)) != []
  }

  function Settle(row: Row, pc: Pc): Row {
    match pc
    case Finishing(result) => row.(execution := Completed, result := Some(result), error := None)
    case Failing(error) => row.(execution := Failed, error := Some(error))
    case _ => row
  }

  /** Past the conflict check: where the execution ends and what it leaves on the server. The
      write meets `now`, the calendar as others may have left it since the read. */
  function PerformedAmid(server: Server, now: Server, id: string, p: Proposal, fault: Fault, tagged: bool): (Pc, Server) {
    var (pc, request) := NextAction(server, id, p);
    if request == None then (pc, server)
    else if fault == RequestLost then (Failing(Remote), now)
    else
      var key := request.value.key;
      var (after, reply) := Handle(now, request.value, tagged);
      if fault == ResponseLost then (Failing(Remote), after)
      else if reply == Applied then (Finishing(ExecutionResult(key.id, false)), after)
      else if reply == AlreadyExists && p.action == Create && key in after.events then
        (if OwnEvent(after.events[key], id, p.event.value) then Finishing(ExecutionResult(key.id, true)) else Failing(Conflict),
         after)
      else (Failing(Remote), after)
  }

  /** The same when nobody else touches the calendar in between. */
  function Performed(server: Server, id: string, p: Proposal, fault: Fault, tagged: bool): (Pc, Server) {
    PerformedAmid(server, server, id, p, fault, tagged)
  }

  /** A whole execution after its claim. */
  function OutcomeAmid(
    server: Server, now: Server, id: string, p: Proposal, listing: seq<string>, fault: Fault, tagged: bool): (Pc, Server)
  {
    if fault == Unreachable then (Failing(Remote), server)
    else if Blocked(server, p, listing) then (Failing(Conflict), server)
    else PerformedAmid(server, now, id, p, fault, tagged)
  }

  function Outcome(server: Server, id: string, p: Proposal, listing: seq<string>, fault: Fault, tagged: bool): (Pc, Server) {
    OutcomeAmid(server, server, id, p, listing, fault, tagged)
  }

  /** An event that is named, not the excluded one, not cancelled and not transparent. */
  ghost predicate Blocks(server: Server, calendar: string, id: string, exclude: string) {
    && id != "" && id != exclude && Key(calendar, id) in server.events
    && !server.events[Key(calendar, id)].body.cancelled && !server.events[Key(calendar, id)].body.transparent
  }

  /** The listing that the conflict check works on is one the server may give. */
  predicate ListingFits(server: Server, p: Proposal, listing: seq<string>) {
    p.action != Delete ==> IsListing(server, p.calendar, p.event.value, listing)
  }

  /** An update that nothing disturbs stores the draft's values and keeps the event's owner. */
  lemma UpdateInQuiet(server: Server, id: string, p: Proposal, tagged: bool)
    requires p.action == Update && Key(p.calendar, p.eventId.value) in server.events
    requires p.expectedEtag.Some? ==> p.expectedEtag == server.events[Key(p.calendar, p.eventId.value)].etag
    ensures var key := Key(p.calendar, p.eventId.value);
            var (pc, after) := PerformedAmid(server, server, id, p, NoFault, tagged);
            && pc == Finishing(ExecutionResult(p.eventId.value, false))
            && after.events.Keys == server.events.Keys
            && after.events[key].marker == server.events[key].marker
            && Patched(server.events[key].body, after.events[key].body, p.event.value)
  {
    var event := server.events[Key(p.calendar, p.eventId.value)];
    MergePatches(event.body, p.event.value);
    hide Patched, MergePatch;
  }

  // ----- the service's code -----

  class GoogleCalendar {
    var server: Server

    constructor (server: Server)
      ensures this.server == server
    {
      this.server := server;
    }

    method GetEvent(key: Key) returns (event: Option<StoredEvent>)
      ensures event == if key in server.events then Some(server.events[key]) else None
    {
      event := if key in server.events then Some(server.events[key]) else None;
    }

    method Receive(request: Request, tagged: bool) returns (reply: Reply)
      modifies this
      ensures (server, reply) == Handle(old(server), request, tagged)
    {
      var (after, answer) := Handle(server, request, tagged);
      server, reply := after, answer;
    }
  }

  class ReliableCalendarService {
    const store: CalendarApprovalStore
    const google: GoogleCalendar

    constructor (store: CalendarApprovalStore, google: GoogleCalendar)
      ensures this.store == store && this.google == google
    {
      this.store := store;
      this.google := google;
    }

    /** The listed events that block the draft, in listing order. */
    method ConflictsForEvent(calendar: string, listing: seq<string>, exclude: string) returns (conflicts: seq<string>)
      requires forall i :: 0 <= i < |listing| ==> Key(calendar, listing[i]) in google.server.events
      ensures conflicts == ConflictsIn(google.server, calendar, listing, exclude)
      ensures forall id :: id in conflicts <==> id in listing && Blocks(google.server, calendar, id, exclude)
    {
      conflicts := [];
      for i := 0 to |listing|
        invariant conflicts == ConflictsIn(google.server, calendar, listing[..i], exclude)
        invariant forall id :: id in conflicts <==> id in listing[..i] && Blocks(google.server, calendar, id, exclude)
      {
        assert listing[..i + 1][..i] == listing[..i];
        var id := listing[i];
        if id == "" || id == exclude {
          continue;
        }
        var item := google.server.events[Key(calendar, id)].body;
        if item.cancelled || item.transparent {
          continue;
        }
        conflicts := conflicts + [id];
      }
      assert listing[..|listing|] == listing;
    }

    /** Checks and enqueues a proposal; an update or delete freezes the current etag. */
    method ProposeChecked(id: string, draft: Proposal, allowConflict: bool, listing: seq<string>) returns (r: Result<Row>)
      requires ListingFits(google.server, draft, listing)
      modifies store
      ensures var p := draft.(allowConflict := allowConflict);
              var key := TargetKey(id, draft);
              if draft.action != Create && key !in google.server.events then
                r == Failure(NotFound) && store.rows == old(store.rows)
              else if Blocked(google.server, p, listing) then
                r == Failure(Conflict) && store.rows == old(store.rows)
              else
                var frozen := p.(expectedEtag := if draft.action == Create then None else google.server.events[key].etag);
                (store.rows, r) == EnqueueStep(old(store.rows), id, frozen)
    {
      var expectedEtag: Option<nat> := None;
      if draft.action != Create {
        var remote := google.GetEvent(TargetKey(id, draft));
        if remote == None {
          return Failure(NotFound);
        }
        expectedEtag := remote.value.etag;
      }
      if draft.action != Delete {
        ListedEventsExist(google.server, draft, listing);
        var conflicts := ConflictsForEvent(draft.calendar, listing, Excluded(draft));
        if conflicts != [] && !allowConflict {
          return Failure(Conflict);
        }
      }
      r := store.Enqueue(id, draft.(expectedEtag := expectedEtag, allowConflict := allowConflict));
    }

    /** Sends one write, which meets the calendar `now`; without an answer the caller raises. */
    method Write(request: Request, now: Server, fault: Fault, tagged: bool) returns (reply: Option<Reply>)
      requires fault != Unreachable
      modifies google
      ensures google.server == if fault == RequestLost then now else Handle(now, request, tagged).0
      ensures reply == if fault == NoFault then Some(Handle(now, request, tagged).1) else None
    {
      google.server := now;
      reply := None;
      if fault != RequestLost {
        var answer := google.Receive(request, tagged);
        if fault == NoFault {
          reply := Some(answer);
        }
      }
    }

    method PerformCreate(id: string, p: Proposal, now: Server, fault: Fault, tagged: bool)
      returns (r: Result<ExecutionResult>)
      requires p.action == Create && fault != Unreachable
      modifies google
      ensures var (pc, server) := PerformedAmid(old(google.server), now, id, p, fault, tagged);
              google.server == server && pc == (match r case Success(result) => Finishing(result) case Failure(e) => Failing(e))
      ensures var key := Key(p.calendar, "ma" + id);
              var before := old(google.server);
              if key in before.events then
                && google.server == before
                && r == if before.events[key].marker == Some(id) && Matches(before.events[key].body, p.event.value)
                        then Success(ExecutionResult("ma" + id, true)) else Failure(Conflict)
              else
                fault == NoFault && now == before ==>
                  && r == Success(ExecutionResult("ma" + id, false))
                  && google.server.events.Keys == before.events.Keys + {key}
                  && google.server.events[key].marker == Some(id)
                  && Matches(google.server.events[key].body, p.event.value)
    {
      var key := Key(p.calendar, RemoteCreateId(id));
      var existing := google.GetEvent(key);
      if existing.Some? {
        if existing.value.marker != Some(id) || !Matches(existing.value.body, p.event.value) {
          return Failure(Conflict);
        }
        return Success(ExecutionResult(key.id, true));
      }
      var payload := BuildGooglePayload(p.event.value);
      var reply := Write(Request(id, key, Insert(payload)), now, fault, tagged);
      if reply == Some(AlreadyExists) {
        var remote := google.GetEvent(key);
        if remote == None {
          return Failure(Remote);
        }
        if remote.value.marker != Some(id) || !Matches(remote.value.body, p.event.value) {
          return Failure(Conflict);
        }
        return Success(ExecutionResult(key.id, true));
      }
      r := if reply == Some(Applied) then Success(ExecutionResult(key.id, false)) else Failure(Remote);
    }

    /** A write never replaces a version other than the one that was read. */
    method PerformUpdate(id: string, p: Proposal, now: Server, fault: Fault, tagged: bool)
      returns (r: Result<ExecutionResult>)
      requires p.action == Update && fault != Unreachable
      modifies google
      ensures var (pc, server) := PerformedAmid(old(google.server), now, id, p, fault, tagged);
              google.server == server && pc == (match r case Success(result) => Finishing(result) case Failure(e) => Failing(e))
      ensures var key := Key(p.calendar, p.eventId.value);
              var before := old(google.server);
              if key !in before.events then google.server == before && r == Failure(NotFound)
              else if p.expectedEtag.Some? && p.expectedEtag != before.events[key].etag then
                && google.server == before
                && r == if Matches(before.events[key].body, p.event.value)
                        then Success(ExecutionResult(p.eventId.value, true)) else Failure(WrongState)
              else
                fault == NoFault && now == before ==>
                  && r == Success(ExecutionResult(p.eventId.value, false))
                  && google.server.events.Keys == before.events.Keys
                  && google.server.events[key].marker == before.events[key].marker
                  && Patched(before.events[key].body, google.server.events[key].body, p.event.value)
      ensures var key, before := Key(p.calendar, p.eventId.value), old(google.server);
              key in before.events && before.events[key].etag.Some?
              && key in now.events && now.events[key].etag != before.events[key].etag ==>
                google.server in {before, now} && (r.Success? ==> r.value.reconciled)
    {
      var key := Key(p.calendar, p.eventId.value);
      var current := google.GetEvent(key);
      if current == None {
        return Failure(NotFound);
      }
      if p.expectedEtag.Some? ==> p.expectedEtag == current.value.etag {
        UpdateInQuiet(google.server, id, p, tagged);
      }
      hide Patched, MergePatch, Matches, Says, Put;
      if p.expectedEtag.Some? && current.value.etag != p.expectedEtag {
        if Matches(current.value.body, p.event.value) {
          return Success(ExecutionResult(key.id, true));
        }
        return Failure(WrongState);
      }
      var payload := BuildGooglePayload(p.event.value);
      var reply := Write(Request(id, key, Patch(payload, current.value.etag)), now, fault, tagged);
      r := if reply == Some(Applied) then Success(ExecutionResult(key.id, false)) else Failure(Remote);
    }

    method PerformDelete(id: string, p: Proposal, now: Server, fault: Fault, tagged: bool)
      returns (r: Result<ExecutionResult>)
      requires p.action == Delete && fault != Unreachable
      modifies google
      ensures var (pc, server) := PerformedAmid(old(google.server), now, id, p, fault, tagged);
              google.server == server && pc == (match r case Success(result) => Finishing(result) case Failure(e) => Failing(e))
      ensures var key := Key(p.calendar, p.eventId.value);
              var before := old(google.server);
              if key !in before.events then google.server == before && r == Success(ExecutionResult(p.eventId.value, true))
              else if p.expectedEtag.Some? && p.expectedEtag != before.events[key].etag then
                google.server == before && r == Failure(WrongState)
              else
                fault == NoFault && now == before ==>
                  && r == Success(ExecutionResult(p.eventId.value, false))
                  && google.server.events == before.events - {key}
      ensures var key, before := Key(p.calendar, p.eventId.value), old(google.server);
              key in before.events && before.events[key].etag.Some?
              && key in now.events && now.events[key].etag != before.events[key].etag ==>
                google.server in {before, now} && (r.Success? ==> r.value.reconciled)
    {
      var key := Key(p.calendar, p.eventId.value);
      var current := google.GetEvent(key);
      if current == None {
        return Success(ExecutionResult(key.id, true));
      }
      if p.expectedEtag.Some? && current.value.etag != p.expectedEtag {
        return Failure(WrongState);
      }
      var reply := Write(Request(id, key, Erase(current.value.etag)), now, fault, tagged);
      r := if reply == Some(Applied) then Success(ExecutionResult(key.id, false)) else Failure(Remote);
    }

    /** The guarded part of execute: re-check conflicts, then perform the mutation. */
    method Attempt(id: string, p: Proposal, listing: seq<string>, now: Server, fault: Fault, tagged: bool)
      returns (r: Result<ExecutionResult>)
      requires ListingFits(google.server, p, listing)
      modifies google
      ensures var (pc, server) := OutcomeAmid(old(google.server), now, id, p, listing, fault, tagged);
              google.server == server && pc == (match r case Success(result) => Finishing(result) case Failure(e) => Failing(e))
    {
      if fault == Unreachable {
        return Failure(Remote);
      }
      if p.action != Delete {
        ListedEventsExist(google.server, p, listing);
        var conflicts := ConflictsForEvent(p.calendar, listing, Excluded(p));
        if conflicts != [] && !p.allowConflict {
          return Failure(Conflict);
        }
      }
      hide PerformedAmid;
      if p.action == Create {
        r := PerformCreate(id, p, now, fault, tagged);
      } else if p.action == Update {
        r := PerformUpdate(id, p, now, fault, tagged);
      } else {
        r := PerformDelete(id, p, now, fault, tagged);
      }
    }

    /** Claims, attempts the mutation, then completes or fails the row. `now` is the calendar
        that the write meets. */
    method Execute(id: string, listing: seq<string>, now: Server, fault: Fault, tagged: bool) returns (r: Result<Row>)
      requires id in store.rows ==> ListingFits(google.server, store.rows[id].proposal, listing)
      modifies store, google
      ensures if Claimable(old(store.rows), id) then
                var row := old(store.rows)[id];
                var (pc, server) := OutcomeAmid(old(google.server), now, id, row.proposal, listing, fault, tagged);
                && google.server == server
                && store.rows == old(store.rows)[id := Settle(row.(execution := Executing, error := None), pc)]
                && (r.Success? <==> store.rows[id].execution == Completed)
              else
                && google.server == old(google.server)
                && (store.rows, r) == ClaimStep(old(store.rows), id)
    {
      hide OutcomeAmid, ListingFits;
      var claimed := store.Claim(id);
      if claimed.Failure? || claimed.value.execution == Completed {
        return claimed;
      }
      var outcome := Attempt(id, claimed.value.proposal, listing, now, fault, tagged);
      if outcome.Success? {
        r := store.Complete(id, outcome.value);
      } else {
        var _ := store.Fail(id, outcome.error);
        r := Failure(outcome.error);
      }
    }
  }

  lemma ListedEventsExist(server: Server, p: Proposal, listing: seq<string>)
    requires p.action != Delete && ListingFits(server, p, listing)
    ensures forall i :: 0 <= i < |listing| ==> Key(p.calendar, listing[i]) in server.events
  {
  }
}
