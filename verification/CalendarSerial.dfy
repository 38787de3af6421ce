/** Serial executions: each one is a run of the protocol, opaque events stay disjoint, and
    a retry after a lost response reconciles exactly when it should. */
module CalendarSerial {
  import opened Common
  import opened CalendarEvents
  import opened CalendarApprovals
  import opened CalendarProtocol
  import opened CalendarSafety
  import opened CalendarService

  // ----- one execution is a run of the protocol -----

  predicate Sent(w: World, id: string) {
    id in w.procs && w.procs[id].Waiting?
  }

  function Answered(w: World, id: string, nonce: nat, fault: Fault, tagged: bool): World {
    if !Sent(w, id) then w
    else if fault == NoFault then DoRespond(DoDeliver(w, nonce, tagged), id)
    else if fault == ResponseLost then DoBreak(DoDeliver(w, nonce, tagged), id)
    else DoBreak(w, id)
  }

  /** From the read to the final transaction. */
  function Rest(w: World, id: string, fault: Fault, tagged: bool): World {
    DoFinish(Answered(DoRead(w, id), id, w.nextNonce, fault, tagged), id)
  }

  /** An execution that no other step interrupts. */
  function Serial(w: World, id: string, listing: seq<string>, fault: Fault, tagged: bool): World {
    var begun := DoStart(w, id);
    Rest(if fault == Unreachable then DoBreak(begun, id) else DoCheck(begun, id, listing), id, fault, tagged)
  }

  ghost predicate Reaches(w: World, w': World) {
    exists steps :: Run(w, steps) == w'
  }

  lemma ReachesMore(w: World, w': World, step: Step)
    requires Reaches(w, w')
    ensures Reaches(w, Do(w', step))
  {
    hide Do;
    var steps :| Run(w, steps) == w';
    assert (steps + [step])[..|steps|] == steps;
    assert Run(w, steps + [step]) == Do(w', step);
  }

  lemma AnsweredReaches(w: World, read: World, id: string, nonce: nat, fault: Fault, tagged: bool)
    requires Reaches(w, read)
    ensures Reaches(w, Answered(read, id, nonce, fault, tagged))
  {
    hide Reaches, DoDeliver, DoRespond, DoBreak;
    ReachesMore(w, read, Break(id));
    ReachesMore(w, read, Deliver(nonce, tagged));
    ReachesMore(w, DoDeliver(read, nonce, tagged), if fault == NoFault then Respond(id) else Break(id));
  }

  lemma RestReaches(w: World, checked: World, id: string, fault: Fault, tagged: bool)
    requires Reaches(w, checked)
    ensures Reaches(w, Rest(checked, id, fault, tagged))
  {
    hide Reaches, DoRead, DoFinish, Answered;
    ReachesMore(w, checked, Read(id));
    AnsweredReaches(w, DoRead(checked, id), id, checked.nextNonce, fault, tagged);
    ReachesMore(w, Answered(DoRead(checked, id), id, checked.nextNonce, fault, tagged), Finish(id));
  }

  lemma SerialIsARun(w: World, id: string, listing: seq<string>, fault: Fault, tagged: bool)
    ensures Reaches(w, Serial(w, id, listing, fault, tagged))
  {
    assert Run(w, []) == w;
    hide Reaches, Run, DoStart, DoCheck, DoBreak, Rest;
    ReachesMore(w, w, Start(id));
    var begun := DoStart(w, id);
    ReachesMore(w, begun, if fault == Unreachable then Break(id) else Check(id, listing));
    RestReaches(w, if fault == Unreachable then DoBreak(begun, id) else DoCheck(begun, id, listing), id, fault, tagged);
  }

  ghost predicate Idle(w: World) {
    Wired(w) && w.up && w.procs == map[]
  }

  lemma {:induction false} ReachesWired(w: World, steps: seq<Step>)
    requires Wired(w)
    ensures Wired(Run(w, steps))
  {
    if steps != [] {
      ReachesWired(w, steps[..|steps| - 1]);
      StepKeepsWired(Run(w, steps[..|steps| - 1]), steps[|steps| - 1]);
    }
  }

  function Claimed(row: Row): Row {
    row.(execution := Executing, error := None)
  }

  /** Once the write is on the wire: the answer, the fault and the final transaction. */
  lemma AfterSend(w: World, id: string, nonce: nat, fault: Fault, tagged: bool)
    requires id in w.procs && w.procs[id] == Waiting(nonce) && InProgress(w.rows, id)
    requires nonce in w.sent && nonce !in w.replies && fault != Unreachable
    requires Handle(w.server, w.sent[nonce], tagged).1 != AlreadyExists
    ensures var (after, reply) := Handle(w.server, w.sent[nonce], tagged);
            var last := DoFinish(Answered(w, id, nonce, fault, tagged), id);
            && last.up == w.up && last.procs == w.procs - {id}
            && last.server == (if fault == RequestLost then w.server else after)
            && last.rows == w.rows[id := Settle(w.rows[id],
                 if fault == NoFault && reply == Applied then Finishing(ExecutionResult(w.sent[nonce].key.id, false))
                 else Failing(Remote))]
  {
    hide Handle;
    var delivered := DoDeliver(w, nonce, tagged);
    assert delivered.replies[nonce] == Handle(w.server, w.sent[nonce], tagged).1;
    assert delivered.procs == w.procs && delivered.rows == w.rows && delivered.sent == w.sent;
  }

  /** After its read an execution is over or sends a write that the server would apply. */
  lemma ActionsEnd(server: Server, id: string, p: Proposal, tagged: bool)
    ensures var (pc, request) := NextAction(server, id, p);
            if request.Some? then Handle(server, request.value, tagged).1 == Applied else pc.Finishing? || pc.Failing?
  {
  }

  ghost predicate Settled(w: World, id: string, pc: Pc, server: Server, last: World)
    requires id in w.rows
  {
    && last.up == w.up && last.procs == w.procs - {id} && last.server == server
    && last.rows == w.rows[id := Settle(w.rows[id], pc)]
  }

  lemma AfterVerdict(w: World, id: string, nonce: nat, fault: Fault, tagged: bool)
    requires id in w.procs && (w.procs[id].Finishing? || w.procs[id].Failing?) && InProgress(w.rows, id)
    ensures Settled(w, id, w.procs[id], w.server, DoFinish(Answered(w, id, nonce, fault, tagged), id))
  {
  }

  lemma NothingToRead(w: World, id: string, fault: Fault, tagged: bool)
    requires id in w.procs && w.procs[id].Failing? && InProgress(w.rows, id)
    ensures Settled(w, id, w.procs[id], w.server, Rest(w, id, fault, tagged))
  {
  }

  lemma ReadSends(w: World, id: string)
    requires At(w, id, Reading)
    ensures var (pc, request) := NextAction(w.server, id, w.rows[id].proposal);
            DoRead(w, id) ==
              if request.Some? then
                w.(procs := w.procs[id := Waiting(w.nextNonce)], sent := w.sent[w.nextNonce := request.value],
                   nextNonce := w.nextNonce + 1)
              else w.(procs := w.procs[id := pc])
  {
  }

  /** Once the conflict check is passed: what Performed says happens. */
  lemma AfterCheck(w: World, id: string, fault: Fault, tagged: bool)
    requires At(w, id, Reading) && fault != Unreachable && InProgress(w.rows, id)
    requires w.nextNonce !in w.sent && w.nextNonce !in w.replies
    ensures var (pc, server) := Performed(w.server, id, w.rows[id].proposal, fault, tagged);
            Settled(w, id, pc, server, Rest(w, id, fault, tagged))
  {
    if NextAction(w.server, id, w.rows[id].proposal).1.Some? {
      CheckedAndSent(w, id, fault, tagged);
    } else {
      CheckedAndDone(w, id, fault, tagged);
    }
  }

  lemma PerformedSends(server: Server, id: string, p: Proposal, fault: Fault, tagged: bool)
    requires NextAction(server, id, p).1.Some?
    ensures var request := NextAction(server, id, p).1.value;
            var (after, reply) := Handle(server, request, tagged);
            && reply == Applied
            && Performed(server, id, p, fault, tagged) ==
                 (if fault == NoFault || fault == Unreachable then Finishing(ExecutionResult(request.key.id, false)) else Failing(Remote),
                  if fault == RequestLost then server else after)
  {
    ActionsEnd(server, id, p, tagged);
    hide NextAction, Handle;
  }

  lemma CheckedAndSent(w: World, id: string, fault: Fault, tagged: bool)
    requires At(w, id, Reading) && fault != Unreachable && InProgress(w.rows, id)
    requires w.nextNonce !in w.sent && w.nextNonce !in w.replies
    requires NextAction(w.server, id, w.rows[id].proposal).1.Some?
    ensures var (pc, server) := Performed(w.server, id, w.rows[id].proposal, fault, tagged);
            Settled(w, id, pc, server, Rest(w, id, fault, tagged))
  {
    ReadSends(w, id);
    PerformedSends(w.server, id, w.rows[id].proposal, fault, tagged);
    hide NextAction, Handle, DoRead, DoFinish, Answered, Settle, Performed;
    AfterSend(DoRead(w, id), id, w.nextNonce, fault, tagged);
  }

  lemma CheckedAndDone(w: World, id: string, fault: Fault, tagged: bool)
    requires At(w, id, Reading) && InProgress(w.rows, id)
    requires NextAction(w.server, id, w.rows[id].proposal).1 == None
    ensures var (pc, server) := Performed(w.server, id, w.rows[id].proposal, fault, tagged);
            Settled(w, id, pc, server, Rest(w, id, fault, tagged))
  {
    ReadSends(w, id);
    ActionsEnd(w.server, id, w.rows[id].proposal, tagged);
    hide NextAction, Handle, DoRead, DoFinish, Answered, Settle;
    AfterVerdict(DoRead(w, id), id, w.nextNonce, fault, tagged);
  }

  /** The claim, with the nonce of the next request still unused. */
  lemma AfterStart(w: World, id: string)
    requires Idle(w) && Claimable(w.rows, id)
    ensures w.nextNonce !in w.sent && w.nextNonce !in w.replies
    ensures DoStart(w, id) == w.(rows := w.rows[id := Claimed(w.rows[id])], procs := map[id := AfterClaim(w.rows[id].proposal)])
  {
  }

  function Verdict(server: Server, p: Proposal, listing: seq<string>, fault: Fault): Pc {
    if fault == Unreachable then Failing(Remote) else if Blocked(server, p, listing) then Failing(Conflict) else Reading
  }

  lemma AfterClaimChecks(w: World, id: string, listing: seq<string>, fault: Fault)
    requires id in w.rows && w.procs == map[id := AfterClaim(w.rows[id].proposal)]
    requires ListingFits(w.server, w.rows[id].proposal, listing)
    ensures (if fault == Unreachable then DoBreak(w, id) else DoCheck(w, id, listing))
         == w.(procs := map[id := Verdict(w.server, w.rows[id].proposal, listing, fault)])
  {
    hide IsListing, ConflictsIn;
    var pc := Verdict(w.server, w.rows[id].proposal, listing, fault);
    assert w.procs[id := pc] == map[id := pc];
  }

  /** The world after claim and conflict check. */
  function Checked(w: World, id: string, listing: seq<string>, fault: Fault): World
    requires id in w.rows
  {
    w.(rows := w.rows[id := Claimed(w.rows[id])], procs := map[id := Verdict(w.server, w.rows[id].proposal, listing, fault)])
  }

  lemma SerialSettles(w: World, id: string, listing: seq<string>, fault: Fault, tagged: bool)
    requires Idle(w) && Claimable(w.rows, id) && ListingFits(w.server, w.rows[id].proposal, listing)
    ensures var (pc, server) := Outcome(w.server, id, w.rows[id].proposal, listing, fault, tagged);
            Settled(Checked(w, id, listing, fault), id, pc, server, Serial(w, id, listing, fault, tagged))
  {
    AfterStart(w, id);
    var begun := DoStart(w, id);
    assert begun.rows[id].proposal == w.rows[id].proposal && InProgress(begun.rows, id);
    AfterClaimChecks(begun, id, listing, fault);
    hide DoStart, DoCheck, DoBreak, Rest, Outcome, Verdict, ListingFits, Settled, Wired;
    RestOutcome(begun, id, listing, fault, tagged);
  }

  /** An execution that no other step interrupts ends as Outcome says. */
  lemma SerialOutcome(w: World, id: string, listing: seq<string>, fault: Fault, tagged: bool)
    requires Idle(w) && Claimable(w.rows, id) && ListingFits(w.server, w.rows[id].proposal, listing)
    ensures var (pc, server) := Outcome(w.server, id, w.rows[id].proposal, listing, fault, tagged);
            var w' := Serial(w, id, listing, fault, tagged);
            && Idle(w') && w'.server == server
            && w'.rows == w.rows[id := Settle(Claimed(w.rows[id]), pc)]
  {
    hide Serial, Outcome, Verdict, ListingFits, Settle, Wired;
    var (pc, server) := Outcome(w.server, id, w.rows[id].proposal, listing, fault, tagged);
    SerialSettles(w, id, listing, fault, tagged);
    SettledAlone(w, id, listing, fault, pc, server, Serial(w, id, listing, fault, tagged));
    SerialStaysWired(w, id, listing, fault, tagged);
    hide Settled;
  }

  lemma SettledAlone(w: World, id: string, listing: seq<string>, fault: Fault, pc: Pc, server: Server, last: World)
    requires w.up && id in w.rows && Settled(Checked(w, id, listing, fault), id, pc, server, last)
    ensures last.up && last.procs == map[] && last.server == server
    ensures last.rows == w.rows[id := Settle(Claimed(w.rows[id]), pc)]
  {
  }

  lemma RestOutcome(w: World, id: string, listing: seq<string>, fault: Fault, tagged: bool)
    requires id in w.rows && InProgress(w.rows, id) && w.nextNonce !in w.sent && w.nextNonce !in w.replies
    ensures var checked := w.(procs := map[id := Verdict(w.server, w.rows[id].proposal, listing, fault)]);
            var (pc, server) := Outcome(w.server, id, w.rows[id].proposal, listing, fault, tagged);
            Settled(checked, id, pc, server, Rest(checked, id, fault, tagged))
  {
    hide Rest, PerformedAmid, Blocked, Settled;
    var checked := w.(procs := map[id := Verdict(w.server, w.rows[id].proposal, listing, fault)]);
    if checked.procs[id] == Reading {
      AfterCheck(checked, id, fault, tagged);
    } else {
      NothingToRead(checked, id, fault, tagged);
    }
  }

  lemma SerialStaysWired(w: World, id: string, listing: seq<string>, fault: Fault, tagged: bool)
    requires Wired(w)
    ensures Wired(Serial(w, id, listing, fault, tagged))
  {
    SerialIsARun(w, id, listing, fault, tagged);
    hide Wired, Serial;
    var steps :| Run(w, steps) == Serial(w, id, listing, fault, tagged);
    ReachesWired(w, steps);
  }

  // ----- opaque events stay disjoint -----

  /** No two opaque events of one calendar overlap. */
  ghost predicate Disjoint(server: Server) {
    forall a, b | a in server.events && b in server.events && a != b && a.calendar == b.calendar ::
      Opaque(server.events[a].body) && Opaque(server.events[b].body) ==>
        !Overlaps(server.events[a].body, Instant(server.events[b].body.start), Instant(server.events[b].body.end))
  }

  ghost predicate Named(server: Server) {
    forall key :: key in server.events ==> key.id != ""
  }

  lemma {:induction false} DistinctFill(listing: seq<string>, ids: set<string>)
    requires forall i, j :: 0 <= i < j < |listing| ==> listing[i] != listing[j]
    requires forall i :: 0 <= i < |listing| ==> listing[i] in ids
    ensures |listing| <= |ids|
    ensures |listing| == |ids| ==> forall id :: id in ids ==> id in listing
  {
    if listing == [] {
      if ids != {} {
        assert |ids| > 0;
      }
    } else {
      var init, last := listing[..|listing| - 1], listing[|listing| - 1];
      DistinctFill(init, ids - {last});
      assert listing == init + [last];
    }
  }

  lemma {:induction false} NoConflictListed(server: Server, calendar: string, listing: seq<string>, exclude: string)
    ensures ConflictsIn(server, calendar, listing, exclude) == []
       <==> forall i :: 0 <= i < |listing| ==> !IsConflict(server, calendar, listing[i], exclude)
  {
    if listing != [] {
      NoConflictListed(server, calendar, listing[..|listing| - 1], exclude);
    }
  }

  /** What the conflict check stops: a create or update without the owner's leave, because of a
      listed event that is not the one the proposal names and is neither cancelled nor
      transparent. */
  lemma BlockedExactly(server: Server, p: Proposal, listing: seq<string>)
    ensures Blocked(server, p, listing) <==>
              && p.action in {Create, Update} && !p.allowConflict
              && exists i :: 0 <= i < |listing| && listing[i] != "" && p.eventId != Some(listing[i])
                             && Key(p.calendar, listing[i]) in server.events
                             && !server.events[Key(p.calendar, listing[i])].body.cancelled
                             && !server.events[Key(p.calendar, listing[i])].body.transparent
  {
    NoConflictListed(server, p.calendar, listing, Excluded(p));
    forall i | 0 <= i < |listing|
      ensures IsConflict(server, p.calendar, listing[i], Excluded(p)) <==>
                && listing[i] != "" && p.eventId != Some(listing[i])
                && Key(p.calendar, listing[i]) in server.events
                && !server.events[Key(p.calendar, listing[i])].body.cancelled
                && !server.events[Key(p.calendar, listing[i])].body.transparent
    {
    }
    hide ConflictsIn, IsConflict;
  }

  /** Some opaque event other than the excluded one overlaps the draft. */
  ghost predicate Occupied(server: Server, calendar: string, draft: EventDraft, exclude: string) {
    exists key :: key in server.events && key.calendar == calendar && key.id != exclude
                  && Opaque(server.events[key].body) && Overlaps(server.events[key].body, draft.start, draft.end)
  }

  /** The overlapping events that the check reports if it sees them. */
  function Conflicting(server: Server, p: Proposal): set<string>
    requires p.action != Delete
  {
    set id | id in Overlapping(server, p.calendar, p.event.value) && IsConflict(server, p.calendar, id, Excluded(p))
  }

  predicate AheadOf(server: Server, calendar: string, id: string, others: set<string>) {
    forall other :: other in others ==> StartOf(server, calendar, id) <= StartOf(server, calendar, other)
  }

  /** The overlapping events that are no conflict, because they are transparent or excluded,
      and that start at or before the earliest conflict. */
  function HarmlessAhead(server: Server, p: Proposal): set<string>
    requires p.action != Delete
  {
    set id | id in Overlapping(server, p.calendar, p.event.value) && !IsConflict(server, p.calendar, id, Excluded(p))
             && AheadOf(server, p.calendar, id, Conflicting(server, p))
  }

  /** Harmless events cannot fill the listing before the earliest conflict. */
  predicate Checkable(server: Server, p: Proposal)
    requires p.action != Delete
  {
    Conflicting(server, p) != {} ==> |HarmlessAhead(server, p)| < LISTING_CAP
  }

  lemma OccupiedMeansConflicting(server: Server, p: Proposal)
    requires p.action != Delete && Named(server)
    ensures Occupied(server, p.calendar, p.event.value, Excluded(p)) <==> Conflicting(server, p) != {}
  {
    if Occupied(server, p.calendar, p.event.value, Excluded(p)) {
      var key :| key in server.events && key.calendar == p.calendar && key.id != Excluded(p)
              && Opaque(server.events[key].body) && Overlaps(server.events[key].body, p.event.value.start, p.event.value.end);
      assert key == Key(p.calendar, key.id);
      assert key.id in Conflicting(server, p);
    }
    if id :| id in Conflicting(server, p) {
      assert Key(p.calendar, id) in server.events;
    }
  }

  /** A listing without a conflict shows harmless events only, and hides a conflict only
      behind a full page of them. */
  lemma CleanListing(server: Server, p: Proposal, listing: seq<string>)
    requires p.action != Delete && ListingFits(server, p, listing)
    requires ConflictsIn(server, p.calendar, listing, Excluded(p)) == [] && Conflicting(server, p) != {}
    ensures |HarmlessAhead(server, p)| >= LISTING_CAP
  {
    NoConflictListed(server, p.calendar, listing, Excluded(p));
    forall i | 0 <= i < |listing|
      ensures listing[i] in HarmlessAhead(server, p)
    {
      forall other | other in Conflicting(server, p)
        ensures StartOf(server, p.calendar, listing[i]) <= StartOf(server, p.calendar, other)
      {
        assert other !in listing;
      }
    }
    DistinctFill(listing, HarmlessAhead(server, p));
  }

  lemma ListedConflicts(server: Server, p: Proposal, listing: seq<string>)
    requires p.action != Delete && ListingFits(server, p, listing)
    requires ConflictsIn(server, p.calendar, listing, Excluded(p)) != []
    ensures Conflicting(server, p) != {}
  {
    NoConflictListed(server, p.calendar, listing, Excluded(p));
    var i :| 0 <= i < |listing| && IsConflict(server, p.calendar, listing[i], Excluded(p));
    assert listing[i] in Conflicting(server, p);
  }

  /** With fewer than 50 harmless events at or before the earliest conflict, the check reports
      a conflict if and only if there is one. */
  lemma ConflictCheckIsExact(server: Server, p: Proposal, listing: seq<string>)
    requires p.action != Delete && Named(server) && ListingFits(server, p, listing) && Checkable(server, p)
    ensures ConflictsIn(server, p.calendar, listing, Excluded(p)) != []
       <==> Occupied(server, p.calendar, p.event.value, Excluded(p))
  {
    OccupiedMeansConflicting(server, p);
    if ConflictsIn(server, p.calendar, listing, Excluded(p)) != [] {
      ListedConflicts(server, p, listing);
    } else if Conflicting(server, p) != {} {
      CleanListing(server, p, listing);
    }
  }

  /** A conflict that starts before every harmless event is always reported, however many
      of those there are. */
  lemma EarlierConflictIsReported(server: Server, p: Proposal, listing: seq<string>, id: string)
    requires p.action != Delete && ListingFits(server, p, listing) && id in Conflicting(server, p)
    requires forall other :: other in Overlapping(server, p.calendar, p.event.value) && other !in Conflicting(server, p) ==>
               StartOf(server, p.calendar, id) < StartOf(server, p.calendar, other)
    ensures ConflictsIn(server, p.calendar, listing, Excluded(p)) != []
  {
    assert HarmlessAhead(server, p) == {};
    if ConflictsIn(server, p.calendar, listing, Excluded(p)) == [] {
      CleanListing(server, p, listing);
    }
  }

  lemma {:induction false} Earliest(server: Server, calendar: string, ids: set<string>) returns (first: string)
    requires ids != {}
    ensures first in ids && AheadOf(server, calendar, first, ids)
  {
    first :| first in ids;
    if ids != {first} {
      var other := Earliest(server, calendar, ids - {first});
      if StartOf(server, calendar, other) < StartOf(server, calendar, first) {
        first := other;
      }
    }
  }

  lemma {:induction false} ListEarliest(server: Server, calendar: string, ids: set<string>, n: nat) returns (listing: seq<string>)
    requires n <= |ids|
    ensures |listing| == n && EarliestFirst(server, calendar, ids, listing)
  {
    if n == 0 {
      listing := [];
    } else {
      var first := Earliest(server, calendar, ids);
      var rest := ListEarliest(server, calendar, ids - {first}, n - 1);
      listing := [first] + rest;
    }
  }

  /** The server always has an answer. */
  lemma SomeListing(server: Server, p: Proposal) returns (listing: seq<string>)
    requires p.action != Delete
    ensures ListingFits(server, p, listing)
  {
    var ids := Overlapping(server, p.calendar, p.event.value);
    listing := ListEarliest(server, p.calendar, ids, if |ids| < LISTING_CAP then |ids| else LISTING_CAP);
    DistinctFill(listing, ids);
  }

  ghost predicate CheckIsExact(server: Server, p: Proposal)
    requires p.action != Delete
  {
    forall listing :: ListingFits(server, p, listing) ==>
      (ConflictsIn(server, p.calendar, listing, Excluded(p)) != [] <==> Occupied(server, p.calendar, p.event.value, Excluded(p)))
  }

  /** A full page of harmless events that the server may list. */
  lemma HidingListing(server: Server, p: Proposal) returns (listing: seq<string>)
    requires p.action != Delete && |HarmlessAhead(server, p)| >= LISTING_CAP && Conflicting(server, p) != {}
    ensures ListingFits(server, p, listing) && ConflictsIn(server, p.calendar, listing, Excluded(p)) == []
  {
    var ahead := HarmlessAhead(server, p);
    listing := ListEarliest(server, p.calendar, ahead, LISTING_CAP);
    forall i, id | 0 <= i < |listing| && id in Overlapping(server, p.calendar, p.event.value) && id !in listing
      ensures StartOf(server, p.calendar, listing[i]) <= StartOf(server, p.calendar, id)
    {
      assert listing[i] in ahead;
      if id !in ahead && id !in Conflicting(server, p) {
        var other :| other in Conflicting(server, p) && StartOf(server, p.calendar, id) > StartOf(server, p.calendar, other);
      }
    }
    NoConflictListed(server, p.calendar, listing, Excluded(p));
  }

  /** The conflict check is exact for every listing the server may give if and only if there
      is no conflict or fewer than 50 harmless events start at or before the earliest one. */
  lemma ConflictCheckFailsExactly(server: Server, p: Proposal)
    requires p.action != Delete && Named(server)
    ensures CheckIsExact(server, p) <==>
              !Occupied(server, p.calendar, p.event.value, Excluded(p)) || |HarmlessAhead(server, p)| < 50
  {
    OccupiedMeansConflicting(server, p);
    if Checkable(server, p) {
      forall listing | ListingFits(server, p, listing)
        ensures ConflictsIn(server, p.calendar, listing, Excluded(p)) != []
           <==> Occupied(server, p.calendar, p.event.value, Excluded(p))
      {
        ConflictCheckIsExact(server, p, listing);
      }
    } else {
      var listing := HidingListing(server, p);
    }
  }

  /** Writing a body with the draft's times into a free place keeps opaque events disjoint. */
  lemma PutKeepsDisjoint(server: Server, key: Key, body: EventBody, marker: Option<string>, tagged: bool, draft: EventDraft)
    requires Disjoint(server) && Named(server) && key.id != ""
    requires Instant(body.start) == draft.start && Instant(body.end) == draft.end
    requires !Occupied(server, key.calendar, draft, key.id)
    ensures Disjoint(Put(server, key, body, marker, tagged)) && Named(Put(server, key, body, marker, tagged))
  {
  }

  /** A create proposal names an opaque event that its own draft overlaps. */
  predicate NamesOverlap(server: Server, p: Proposal) {
    var named := Key(p.calendar, Excluded(p));
    p.action == Create && named in server.events && Opaque(server.events[named].body)
    && Overlaps(server.events[named].body, p.event.value.start, p.event.value.end)
  }

  /** What the caller must see to it that holds before an execution: no conflict override, a
      create that names no event it overlaps, and no full page of harmless events before the
      earliest conflict. */
  predicate Careful(server: Server, p: Proposal) {
    && !p.allowConflict && !NamesOverlap(server, p)
    && (p.action != Delete ==> Checkable(server, p))
  }

  lemma PerformedKeepsDisjoint(server: Server, id: string, p: Proposal, fault: Fault, tagged: bool)
    requires Disjoint(server) && Named(server)
    requires p.action == Delete || !Occupied(server, p.calendar, p.event.value, Excluded(p))
    requires !NamesOverlap(server, p)
    ensures Disjoint(Performed(server, id, p, fault, tagged).1) && Named(Performed(server, id, p, fault, tagged).1)
  {
    var key := TargetKey(id, p);
    var after := Performed(server, id, p, fault, tagged).1;
    hide Disjoint, Named, Occupied, Matches, Overlaps, NamesOverlap;
    if after != server {
      match p.action {
        case Create =>
          OtherOccupants(server, p, key);
          PutKeepsDisjoint(server, key, FreshBody(GooglePayload(p.event.value)), Some(id), tagged, p.event.value);
        case Update =>
          var event := server.events[key];
          PatchedTimes(event.body, p.event.value);
          PutKeepsDisjoint(server, key, MergePatch(event.body, GooglePayload(p.event.value)), event.marker, tagged, p.event.value);
        case Delete =>
          FewerEventsStayDisjoint(server, key);
      }
    }
  }

  /** Nothing but the named event escapes the check of a create. */
  lemma OtherOccupants(server: Server, p: Proposal, key: Key)
    requires p.action == Create && key.calendar == p.calendar && !NamesOverlap(server, p)
    ensures Occupied(server, p.calendar, p.event.value, key.id) ==> Occupied(server, p.calendar, p.event.value, Excluded(p))
  {
    if Occupied(server, p.calendar, p.event.value, key.id) {
      var other :| other in server.events && other.calendar == p.calendar && other.id != key.id
                && Opaque(server.events[other].body) && Overlaps(server.events[other].body, p.event.value.start, p.event.value.end);
      assert other == Key(p.calendar, other.id);
    }
  }

  lemma FewerEventsStayDisjoint(server: Server, key: Key)
    requires Disjoint(server) && Named(server)
    ensures var fewer := server.(events := server.events - {key}); Disjoint(fewer) && Named(fewer)
  {
  }

  lemma OutcomeKeepsDisjoint(server: Server, id: string, p: Proposal, listing: seq<string>, fault: Fault, tagged: bool)
    requires Disjoint(server) && Named(server) && Careful(server, p) && ListingFits(server, p, listing)
    ensures var after := Outcome(server, id, p, listing, fault, tagged).1; Disjoint(after) && Named(after)
  {
    if fault != Unreachable && !Blocked(server, p, listing) {
      if p.action != Delete {
        ConflictCheckIsExact(server, p, listing);
      }
      hide Disjoint, Named, Performed;
      PerformedKeepsDisjoint(server, id, p, fault, tagged);
    }
  }

  /** One serial job: an owner's transaction or a whole execution. */
  datatype Job =
    | Admin(op: StoreOp)
    | Execute(id: string, listing: seq<string>, fault: Fault, tagged: bool)

  predicate Runnable(w: World, job: Job) {
    match job
    case Admin(op) => op.Enqueue? || op.Decide?
    case Execute(id, listing, _, _) => Claimable(w.rows, id) && ListingFits(w.server, w.rows[id].proposal, listing)
  }

  function RunJob(w: World, job: Job): World {
    match job
    case Admin(op) => DoAdmin(w, op)
    case Execute(id, listing, fault, tagged) => Serial(w, id, listing, fault, tagged)
  }

  function RunJobs(w: World, jobs: seq<Job>): World {
    if jobs == [] then w else RunJob(RunJobs(w, jobs[..|jobs| - 1]), jobs[|jobs| - 1])
  }

  ghost predicate CarefulJob(w: World, job: Job) {
    Runnable(w, job) && (job.Execute? ==> Careful(w.server, w.rows[job.id].proposal))
  }

  /** Any serial sequence of careful executions, with any faults, keeps opaque events
      pairwise disjoint. */
  lemma {:induction false} SerialRunsKeepDisjoint(w: World, jobs: seq<Job>)
    requires Idle(w) && Disjoint(w.server) && Named(w.server)
    requires forall i :: 0 <= i < |jobs| ==> CarefulJob(RunJobs(w, jobs[..i]), jobs[i])
    ensures var w' := RunJobs(w, jobs); Idle(w') && Disjoint(w'.server) && Named(w'.server)
  {
    if jobs != [] {
      var before, job := jobs[..|jobs| - 1], jobs[|jobs| - 1];
      assert forall i :: 0 <= i < |before| ==> before[..i] == jobs[..i];
      SerialRunsKeepDisjoint(w, before);
      var here := RunJobs(w, before);
      assert CarefulJob(here, job);
      JobKeepsDisjoint(here, job);
    }
  }

  lemma JobKeepsDisjoint(w: World, job: Job)
    requires Idle(w) && Disjoint(w.server) && Named(w.server) && CarefulJob(w, job)
    ensures var w' := RunJob(w, job); Idle(w') && Disjoint(w'.server) && Named(w'.server)
  {
    hide Disjoint, Named, Wired, Serial, Careful, ListingFits, Outcome, Apply;
    match job {
      case Admin(op) => AdminKeepsWired(w, op);
      case Execute(id, listing, fault, tagged) =>
        SerialOutcome(w, id, listing, fault, tagged);
        OutcomeKeepsDisjoint(w.server, id, w.rows[id].proposal, listing, fault, tagged);
    }
  }

  // ----- where the conflict check does not protect -----

  function Plain(start: int, end: int, transparent: bool): StoredEvent {
    StoredEvent(EventBody(Some("x"), None, None, TimeField(Some(start), None, None), TimeField(Some(end), None, None), [],
                          transparent, false), None, None)
  }

  const HOUR_DRAFT := EventDraft("x", 0, 60, None, None, [], None)

  /** A create that passed the check and inserts keeps opaque events disjoint exactly when it
      names no event that it overlaps. */
  lemma CreateKeepsDisjointExactly(server: Server, id: string, p: Proposal, listing: seq<string>, tagged: bool)
    requires Disjoint(server) && Named(server) && ListingFits(server, p, listing)
    requires p.action == Create && !p.allowConflict && Checkable(server, p)
    requires !Blocked(server, p, listing) && TargetKey(id, p) !in server.events
    ensures Disjoint(Outcome(server, id, p, listing, NoFault, tagged).1) <==> !NamesOverlap(server, p)
  {
    if !NamesOverlap(server, p) {
      OutcomeKeepsDisjoint(server, id, p, listing, NoFault, tagged);
    } else {
      var after := Outcome(server, id, p, listing, NoFault, tagged).1;
      var named, key := Key(p.calendar, Excluded(p)), TargetKey(id, p);
      assert after == Put(server, key, FreshBody(GooglePayload(p.event.value)), Some(id), tagged);
      assert named in after.events && key in after.events && named != key;
    }
  }

  /** A create that names an event is not checked against that event, so it can overlap it. */
  lemma NamedCreateEscapesTheCheck()
    ensures var server := Server(map[Key("c", "e") := Plain(0, 60, false)], 0);
            var p := ProposalFields(Create, "c", Some("e"), Some(HOUR_DRAFT), None, false);
            && Disjoint(server) && ListingFits(server, p, ["e"])
            && !Disjoint(Outcome(server, "a", p, ["e"], NoFault, true).1)
  {
    var e := Key("c", "e");
    var server := Server(map[e := Plain(0, 60, false)], 0);
    var p := ProposalFields(Create, "c", Some("e"), Some(HOUR_DRAFT), None, false);
    assert e in server.events;
    assert "e" in Overlapping(server, "c", HOUR_DRAFT);
    forall id | id in Overlapping(server, "c", HOUR_DRAFT) ensures id in ["e"] {}
    assert ConflictsIn(server, "c", [], "e") == [];
    assert ["e"][..0] == [];
    var after := Outcome(server, "a", p, ["e"], NoFault, true).1;
    var made := Key("c", RemoteCreateId("a"));
    assert made.id == ['m', 'a', 'a'] && made != e;
    assert made in after.events && e in after.events;
    assert Overlaps(after.events[made].body, 0, 60);
  }

  /** Fifty transparent events fill the listing and hide an opaque one behind them. */
  function Crowd(n: nat): map<Key, StoredEvent> {
    map k | 0 <= k < n :: Key("c", Name(k)) := Plain(0, 60, true)
  }

  /** Distinct non-empty names. */
  function Name(k: nat): string {
    seq(k + 1, _ => 'n')
  }

  lemma FullListingHidesAConflict()
    ensures var hidden := Key("c", "h");
            var server := Server(Crowd(LISTING_CAP)[hidden := Plain(0, 60, false)], 0);
            var p := ProposalFields(Create, "c", None, Some(HOUR_DRAFT), None, false);
            var listing := seq(LISTING_CAP, k requires 0 <= k < LISTING_CAP => Name(k));
            && ListingFits(server, p, listing)
            && Occupied(server, "c", HOUR_DRAFT, "")
            && ConflictsIn(server, "c", listing, "") == []
  {
    var hidden := Key("c", "h");
    var server := Server(Crowd(LISTING_CAP)[hidden := Plain(0, 60, false)], 0);
    var listing := seq(LISTING_CAP, k requires 0 <= k < LISTING_CAP => Name(k));
    assert hidden in server.events;
    forall k | 0 <= k < LISTING_CAP
      ensures Key("c", listing[k]) in server.events && server.events[Key("c", listing[k])] == Plain(0, 60, true)
      ensures listing[k] in Overlapping(server, "c", HOUR_DRAFT)
    {
      assert Name(k)[0] == 'n' && "h"[0] == 'h';
      assert Key("c", Name(k)) in Crowd(LISTING_CAP);
      assert Key("c", listing[k]) in server.events;
    }
    NoConflictListed(server, "c", listing, "");
    AllStartTogether(server);
    hide Crowd, Overlapping, StartOf, ConflictsIn;
    forall i, j | 0 <= i < j < |listing|
      ensures listing[i] != listing[j]
    {
      assert |listing[i]| == i + 1 && |listing[j]| == j + 1;
    }
  }

  lemma AllStartTogether(server: Server)
    requires server.events == Crowd(LISTING_CAP)[Key("c", "h") := Plain(0, 60, false)]
    ensures forall id :: StartOf(server, "c", id) == 0
  {
  }

  // ----- retrying after a lost response -----

  /** A create whose response was lost left its event behind. The retry never inserts again:
      it completes as reconciled unless the conflict check stops it, which it never does when
      the owner allowed conflicts, and always does otherwise while the check is exact,
      because of the event's own entry. */
  lemma CreateRetryAfterLostResponse(
    server: Server, id: string, p: Proposal, first: seq<string>, second: seq<string>, tagged: bool, later: bool)
    requires p.action == Create && Named(server) && TargetKey(id, p) !in server.events
    requires !Blocked(server, p, first) && Excluded(p) != RemoteCreateId(id)
    requires ListingFits(Outcome(server, id, p, first, ResponseLost, tagged).1, p, second)
    ensures var (pc, lost) := Outcome(server, id, p, first, ResponseLost, tagged);
            var (end, after) := Outcome(lost, id, p, second, NoFault, later);
            && pc == Failing(Remote) && TargetKey(id, p) in lost.events && after == lost
            && end == (if Blocked(lost, p, second) then Failing(Conflict)
                       else Finishing(ExecutionResult(RemoteCreateId(id), true)))
            && (p.allowConflict ==> !Blocked(lost, p, second))
            && (!p.allowConflict && Checkable(lost, p) ==> Blocked(lost, p, second))
  {
    var lost := Outcome(server, id, p, first, ResponseLost, tagged).1;
    LostCreateLeavesItsEvent(server, id, p, first, tagged);
    if !p.allowConflict && Checkable(lost, p) {
      ConflictCheckIsExact(lost, p, second);
    }
  }

  lemma LostCreateLeavesItsEvent(server: Server, id: string, p: Proposal, listing: seq<string>, tagged: bool)
    requires p.action == Create && Named(server) && TargetKey(id, p) !in server.events
    requires !Blocked(server, p, listing) && Excluded(p) != RemoteCreateId(id)
    ensures var (pc, lost) := Outcome(server, id, p, listing, ResponseLost, tagged);
            && pc == Failing(Remote) && Named(lost) && TargetKey(id, p) in lost.events
            && OwnEvent(lost.events[TargetKey(id, p)], id, p.event.value)
            && Occupied(lost, p.calendar, p.event.value, Excluded(p))
  {
    var key := TargetKey(id, p);
    var lost := Outcome(server, id, p, listing, ResponseLost, tagged).1;
    InsertMatches(p.event.value);
    assert lost == Put(server, key, FreshBody(GooglePayload(p.event.value)), Some(id), tagged);
    assert Overlaps(lost.events[key].body, p.event.value.start, p.event.value.end);
  }

  /** Some retry after the lost response reconciles if and only if the owner allowed conflicts
      or 50 harmless events start no later than every conflict. */
  lemma CreateRetryReconcilesExactly(server: Server, id: string, p: Proposal, first: seq<string>, tagged: bool, later: bool)
    requires p.action == Create && Named(server) && TargetKey(id, p) !in server.events
    requires !Blocked(server, p, first) && Excluded(p) != RemoteCreateId(id)
    ensures var lost := Outcome(server, id, p, first, ResponseLost, tagged).1;
            (exists second :: ListingFits(lost, p, second) && Outcome(lost, id, p, second, NoFault, later).0.Finishing?)
            <==> p.allowConflict || |HarmlessAhead(lost, p)| >= 50
  {
    var lost := Outcome(server, id, p, first, ResponseLost, tagged).1;
    LostCreateLeavesItsEvent(server, id, p, first, tagged);
    OccupiedMeansConflicting(lost, p);
    forall second | ListingFits(lost, p, second)
      ensures Outcome(lost, id, p, second, NoFault, later).0.Finishing? <==> !Blocked(lost, p, second)
      ensures !p.allowConflict && Checkable(lost, p) ==> Blocked(lost, p, second)
    {
      CreateRetryAfterLostResponse(server, id, p, first, second, tagged, later);
    }
    hide Outcome;
    if p.allowConflict {
      var second := SomeListing(lost, p);
      assert !Blocked(lost, p, second);
    } else if !Checkable(lost, p) {
      var second := HidingListing(lost, p);
      assert !Blocked(lost, p, second);
    }
  }

  /** A create whose id was taken between its read and its insert completes exactly when the
      event is its own, for instance from an earlier request that arrived late; it never
      overwrites the event. */
  lemma CollisionReconcilesExactly(server: Server, now: Server, id: string, p: Proposal, tagged: bool)
    requires p.action == Create && TargetKey(id, p) !in server.events && TargetKey(id, p) in now.events
    ensures PerformedAmid(server, now, id, p, NoFault, tagged) ==
              (if OwnEvent(now.events[TargetKey(id, p)], id, p.event.value)
               then Finishing(ExecutionResult(RemoteCreateId(id), true)) else Failing(Conflict), now)
    ensures now == Handle(server, NextAction(server, id, p).1.value, tagged).0 ==>
              OwnEvent(now.events[TargetKey(id, p)], id, p.event.value)
  {
    InsertMatches(p.event.value);
  }

  /** An update frozen against the current etag whose response was lost: the retry sends
      nothing and, once past the conflict check, completes exactly when every optional field
      that the payload omits was empty on the event before. */
  lemma UpdateRetryAfterLostResponse(
    server: Server, id: string, p: Proposal, first: seq<string>, second: seq<string>, tagged: bool, later: bool)
    requires p.action == Update && EtagsFresh(server) && TargetKey(id, p) in server.events
    requires p.expectedEtag.Some? && server.events[TargetKey(id, p)].etag == p.expectedEtag
    requires !Blocked(server, p, first)
    requires !Blocked(Outcome(server, id, p, first, ResponseLost, tagged).1, p, second)
    ensures var (pc, lost) := Outcome(server, id, p, first, ResponseLost, tagged);
            var (end, after) := Outcome(lost, id, p, second, NoFault, later);
            && pc == Failing(Remote) && after == lost
            && end == if OmittedFieldsEmpty(server.events[TargetKey(id, p)].body, p.event.value)
                      then Finishing(ExecutionResult(TargetKey(id, p).id, true)) else Failing(WrongState)
  {
    var key := TargetKey(id, p);
    var before := server.events[key];
    var lost := Outcome(server, id, p, first, ResponseLost, tagged).1;
    PatchMatchesExactly(before.body, p.event.value);
    hide Matches, OmittedFieldsEmpty;
    assert lost == Put(server, key, MergePatch(before.body, GooglePayload(p.event.value)), before.marker, tagged);
    assert lost.events[key].etag != p.expectedEtag;
  }

  /** A deletion whose response was lost has removed exactly the event that the proposal names.
      The retry sends nothing and completes, because a missing event counts as deleted. */
  lemma DeleteRetryAfterLostResponse(
    server: Server, id: string, p: Proposal, first: seq<string>, second: seq<string>, tagged: bool, later: bool)
    requires p.action == Delete && Key(p.calendar, p.eventId.value) in server.events
    requires p.expectedEtag.Some? ==> server.events[Key(p.calendar, p.eventId.value)].etag == p.expectedEtag
    ensures var (pc, lost) := Outcome(server, id, p, first, ResponseLost, tagged);
            var (end, after) := Outcome(lost, id, p, second, NoFault, later);
            && pc == Failing(Remote) && lost.events == server.events - {Key(p.calendar, p.eventId.value)}
            && end == Finishing(ExecutionResult(p.eventId.value, true)) && after == lost
  {
  }
}
