/** The owner's consent in the calendar protocol: what an approval allows, what a refusal
    rules out, and that nothing is sent, written or completed without one. */
module CalendarConsent {
  import opened Common
  import opened CalendarEvents
  import opened CalendarApprovals
  import opened CalendarProtocol
  import opened CalendarSafety

  /** Step `i` of the run is the owner's decision on the row, and it takes effect: the gateway
      is up and the row waits for one. */
  ghost predicate OwnerDecidedAt(server: Server, steps: seq<Step>, i: int, id: string, approve: bool) {
    && 0 <= i < |steps| && steps[i] == DecideApproval(id, approve)
    && var w := Run(Init(server), steps[..i]);
       w.up && id in w.rows && w.rows[id].decision == Pending
  }

  ghost predicate OwnerDecided(server: Server, steps: seq<Step>, id: string, approve: bool) {
    exists i :: OwnerDecidedAt(server, steps, i, id, approve)
  }

  lemma OwnerDecidedNext(server: Server, steps: seq<Step>, id: string, approve: bool)
    requires steps != []
    ensures OwnerDecided(server, steps, id, approve) <==>
              || OwnerDecided(server, steps[..|steps| - 1], id, approve)
              || OwnerDecidedAt(server, steps, |steps| - 1, id, approve)
  {
    hide Do, Run, Init;
    var before := steps[..|steps| - 1];
    forall i | 0 <= i < |before|
      ensures OwnerDecidedAt(server, before, i, id, approve) <==> OwnerDecidedAt(server, steps, i, id, approve)
    {
      assert before[..i] == steps[..i];
    }
    if i :| OwnerDecidedAt(server, before, i, id, approve) {
      assert OwnerDecidedAt(server, steps, i, id, approve);
    }
    if i :| OwnerDecidedAt(server, steps, i, id, approve) {
      assert i < |before| ==> OwnerDecidedAt(server, before, i, id, approve);
    }
  }

  /** The change that the owner's call makes to the decision of one row. */
  ghost predicate DecidesOnly(rows: Table, rows': Table, id: string, decides: bool, approve: bool) {
    && (HasDecision(rows', id, Approved) <==>
          HasDecision(rows, id, Approved) || (decides && approve && HasDecision(rows, id, Pending)))
    && (HasDecision(rows', id, Rejected) <==>
          HasDecision(rows, id, Rejected) || (decides && !approve && HasDecision(rows, id, Pending)))
  }

  lemma ApplyDecides(t: Table, op: StoreOp, id: string)
    ensures DecidesOnly(t, Apply(t, op), id, op.Decide? && op.id == id, op.Decide? && op.approve)
  {
    StepDecides(t, op, id);
  }

  lemma SameRowsDecideNothing(rows: Table, id: string)
    ensures DecidesOnly(rows, rows, id, false, true) && DecidesOnly(rows, rows, id, false, false)
  {
  }

  lemma FinishDecides(w: World, other: string, id: string)
    ensures DecidesOnly(w.rows, DoFinish(w, other).rows, id, false, false)
  {
    hide DecidesOnly, CompleteStep, FailStep;
    SameRowsDecideNothing(w.rows, id);
    if other in w.procs && w.procs[other].Finishing? {
      ApplyDecides(w.rows, Complete(other, w.procs[other].result), id);
    } else if other in w.procs && w.procs[other].Failing? {
      ApplyDecides(w.rows, Fail(other, w.procs[other].error), id);
    }
  }

  lemma AdminDecides(w: World, op: StoreOp, id: string)
    ensures DecidesOnly(w.rows, DoAdmin(w, op).rows, id, w.up && op.Decide? && op.id == id, op.Decide? && op.approve)
  {
    ApplyDecides(w.rows, op, id);
    hide Apply;
  }

  lemma OtherStepsKeepRows(w: World, step: Step)
    requires step.Check? || step.Read? || step.Deliver? || step.Respond?
          || step.Reread? || step.Break? || step.Crash? || step.External?
    ensures Do(w, step).rows == w.rows
  {
    hide NextAction, Handle, IsListing, ConflictsIn;
  }

  /** No step but the owner's own call, while the gateway is up, decides a row. */
  lemma OnlyTheOwnerDecides(w: World, step: Step, id: string)
    ensures DecidesOnly(w.rows, Do(w, step).rows, id,
                        w.up && step.DecideApproval? && step.id == id, step.DecideApproval? && step.approve)
  {
    hide DecidesOnly, ClaimStep, RecoverStep, DoAdmin, DoFinish;
    SameRowsDecideNothing(w.rows, id);
    match step {
      case Propose(other, proposal) => AdminDecides(w, Enqueue(other, proposal), id);
      case DecideApproval(other, approve) => AdminDecides(w, Decide(other, approve), id);
      case Start(other) => ApplyDecides(w.rows, Claim(other), id);
      case Finish(other) => FinishDecides(w, other, id);
      case Restart => ApplyDecides(w.rows, Recover, id);
      case _ => OtherStepsKeepRows(w, step); hide Do;
    }
  }

  /** In every run a row is approved exactly if the owner approved it while it was pending,
      and rejected exactly if the owner refused it then. */
  lemma {:induction false} RunsFollowTheOwner(server: Server, steps: seq<Step>, id: string)
    ensures HasDecision(Run(Init(server), steps).rows, id, Approved) <==> OwnerDecided(server, steps, id, true)
    ensures HasDecision(Run(Init(server), steps).rows, id, Rejected) <==> OwnerDecided(server, steps, id, false)
  {
    if steps != [] {
      RunsFollowTheOwner(server, steps[..|steps| - 1], id);
      OwnerDecidedNext(server, steps, id, true);
      OwnerDecidedNext(server, steps, id, false);
      OnlyTheOwnerDecides(Run(Init(server), steps[..|steps| - 1]), steps[|steps| - 1], id);
      hide OwnerDecided, Do;
    }
  }

  /** In every run a request that was sent belongs to a row the owner approved before. It goes
      to the calendar and the event that the proposal names, or, for a create, to the id derived
      from the approval; it inserts, patches or deletes as the proposal says, with the
      approved values. */
  lemma EveryRequestWasApproved(server: Server, steps: seq<Step>, nonce: nat)
    requires nonce in Run(Init(server), steps).sent
    ensures var w := Run(Init(server), steps);
            var req := w.sent[nonce];
            && OwnerDecided(server, steps, req.approval, true) && req.approval in w.rows
            && var p := w.rows[req.approval].proposal;
               && req.key.calendar == p.calendar
               && (p.action == Create ==>
                     req.key.id == "ma" + req.approval && req.op.Insert? && Says(req.op.payload, p.event.value))
               && (p.action == Update ==>
                     Some(req.key.id) == p.eventId && req.op.Patch? && Says(req.op.payload, p.event.value))
               && (p.action == Delete ==> Some(req.key.id) == p.eventId && req.op.Erase?)
               && req.key.id != ""
  {
    RunsAreWired(server, steps);
    var w := Run(Init(server), steps);
    assert Authorized(w.rows, w.sent[nonce]);
    RunsFollowTheOwner(server, steps, w.sent[nonce].approval);
    hide Run, Wired, OwnerDecided;
  }

  /** A completed row was approved by the owner before, and its result names the event that its
      proposal is about. */
  lemma EveryCompletedRowWasApproved(server: Server, steps: seq<Step>, id: string)
    requires var w := Run(Init(server), steps); id in w.rows && w.rows[id].execution == Completed
    ensures OwnerDecided(server, steps, id, true)
    ensures var row := Run(Init(server), steps).rows[id];
            && row.result.Some?
            && row.result.value.eventId == if row.proposal.action == Create then "ma" + id else row.proposal.eventId.value
  {
    CompletedMeansAchieved(server, steps, id);
    RunsFollowTheOwner(server, steps, id);
    RunsKeepNamed(server, steps, id);
    RunsAreWired(server, steps);
    assert RowConsistent(Run(Init(server), steps).rows[id]);
    hide Run, OwnerDecided, Wired;
  }

  lemma ExecutingRowsAreApproved(w: World)
    requires Wired(w)
    ensures forall id :: id in w.procs ==> HasDecision(w.rows, id, Approved)
  {
    forall id | id in w.procs
      ensures HasDecision(w.rows, id, Approved)
    {
      assert ProcOk(w, id) && RowConsistent(w.rows[id]);
    }
  }

  /** Once the owner has refused a row, nothing that the run ever sent or wrote belongs to it,
      and it is never executing. */
  lemma RefusedNeverReachesTheCalendar(server: Server, steps: seq<Step>, id: string)
    requires OwnerDecided(server, steps, id, false)
    ensures var w := Run(Init(server), steps);
            && id !in w.procs
            && (forall n :: n in w.sent ==> w.sent[n].approval != id)
            && (forall i :: 0 <= i < |w.log| && w.log[i].origin.Some? ==> w.log[i].origin.value.approval != id)
  {
    RunsFollowTheOwner(server, steps, id);
    RunsAreWired(server, steps);
    var w := Run(Init(server), steps);
    hide Run, Init, OwnerDecided, Conforms;
    forall n | n in w.sent
      ensures w.sent[n].approval != id
    {
      assert Authorized(w.rows, w.sent[n]);
    }
    forall i | 0 <= i < |w.log| && w.log[i].origin.Some?
      ensures w.log[i].origin.value.approval != id
    {
      assert WriteOk(w.rows, w.log[i]);
    }
    ExecutingRowsAreApproved(w);
  }

  /** While the gateway is up an execution begins exactly for a row that the owner approved and
      that is neither executing nor completed; it begins with the conflict check unless the
      event is to be deleted. */
  lemma ExecutionBeginsExactly(server: Server, steps: seq<Step>, id: string)
    requires Run(Init(server), steps).up
    ensures var w := Run(Init(server), steps);
            var begun := DoStart(w, id);
            && (begun != w <==>
                  && OwnerDecided(server, steps, id, true)
                  && id in w.rows && w.rows[id].execution !in {Executing, Completed})
            && (begun != w ==>
                  && id in begun.procs && id in begun.rows && begun.rows[id].execution == Executing
                  && begun.procs[id] == if w.rows[id].proposal.action == Delete then Reading else Checking)
  {
    RunsFollowTheOwner(server, steps, id);
    RunsAreWired(server, steps);
    var w := Run(Init(server), steps);
    assert id in w.rows ==> RowConsistent(w.rows[id]);
    hide Run, Init, OwnerDecided;
  }

  // ----- the result of a completed row -----

  /** The result names the event that the proposal is about. */
  ghost predicate Names(result: ExecutionResult, id: string, p: Proposal) {
    result.eventId == if p.action == Create then "ma" + id else p.eventId.value
  }

  ghost predicate ProcNames(w: World, id: string) {
    id in w.procs && w.procs[id].Finishing? && id in w.rows ==> Names(w.procs[id].result, id, w.rows[id].proposal)
  }

  ghost predicate RowNames(rows: Table, id: string) {
    id in rows && rows[id].result.Some? ==> Names(rows[id].result.value, id, rows[id].proposal)
  }

  ghost predicate ResultNamed(w: World, id: string) {
    ProcNames(w, id) && RowNames(w.rows, id)
  }

  lemma AdminKeepsNamed(w: World, op: StoreOp, id: string)
    requires Wired(w) && ResultNamed(w, id) && (op.Enqueue? || op.Decide?)
    ensures ResultNamed(DoAdmin(w, op), id)
  {
    assert id in w.procs ==> ProcOk(w, id);
  }

  lemma StartKeepsNamed(w: World, other: string, id: string)
    requires ResultNamed(w, id)
    ensures ResultNamed(DoStart(w, other), id)
  {
  }

  lemma CheckKeepsNamed(w: World, other: string, listing: seq<string>, id: string)
    requires ResultNamed(w, id)
    ensures ResultNamed(DoCheck(w, other, listing), id)
  {
    hide IsListing, ConflictsIn;
  }

  lemma ReadKeepsNamed(w: World, other: string, id: string)
    requires ResultNamed(w, id)
    ensures ResultNamed(DoRead(w, other), id)
  {
  }

  lemma RespondKeepsNamed(w: World, other: string, id: string)
    requires Wired(w) && ResultNamed(w, id)
    ensures ResultNamed(DoRespond(w, other), id)
  {
    if other == id && id in w.procs && w.procs[id].Waiting? {
      assert ProcOk(w, id) && Authorized(w.rows, w.sent[w.procs[id].nonce]);
    }
    hide Wired, ProcOk, GooglePayload;
  }

  lemma RereadKeepsNamed(w: World, other: string, id: string)
    requires ResultNamed(w, id)
    ensures ResultNamed(DoReread(w, other), id)
  {
    hide OwnEvent;
  }

  lemma BreakKeepsNamed(w: World, other: string, id: string)
    requires ResultNamed(w, id)
    ensures ResultNamed(DoBreak(w, other), id)
  {
  }

  lemma FinishKeepsNamed(w: World, other: string, id: string)
    requires ResultNamed(w, id)
    ensures ResultNamed(DoFinish(w, other), id)
  {
  }

  lemma CrashAndRestartKeepNamed(w: World, id: string)
    requires Wired(w) && ResultNamed(w, id)
    ensures ResultNamed(DoCrash(w), id) && ResultNamed(DoRestart(w), id)
  {
    DownMeansIdle(w);
    hide Wired;
  }

  lemma ServerStepsKeepNamed(w: World, step: Step, id: string)
    requires ResultNamed(w, id) && (step.Deliver? || step.External?)
    ensures ResultNamed(Do(w, step), id)
  {
    hide Handle;
  }

  lemma StepKeepsNamed(w: World, step: Step, id: string)
    requires Wired(w) && ResultNamed(w, id)
    ensures ResultNamed(Do(w, step), id)
  {
    hide Wired, ResultNamed, DoAdmin, DoStart, DoCheck, DoRead, DoDeliver;
    hide DoRespond, DoReread, DoBreak, DoFinish, DoCrash, DoRestart, DoExternal;
    match step {
      case Propose(other, proposal) => AdminKeepsNamed(w, Enqueue(other, proposal), id);
      case DecideApproval(other, approve) => AdminKeepsNamed(w, Decide(other, approve), id);
      case Start(other) => StartKeepsNamed(w, other, id);
      case Check(other, listing) => CheckKeepsNamed(w, other, listing, id);
      case Read(other) => ReadKeepsNamed(w, other, id);
      case Deliver(_, _) => ServerStepsKeepNamed(w, step, id);
      case Respond(other) => RespondKeepsNamed(w, other, id);
      case Reread(other) => RereadKeepsNamed(w, other, id);
      case Break(other) => BreakKeepsNamed(w, other, id);
      case Finish(other) => FinishKeepsNamed(w, other, id);
      case Crash => CrashAndRestartKeepNamed(w, id);
      case Restart => CrashAndRestartKeepNamed(w, id);
      case External(_, _, _) => ServerStepsKeepNamed(w, step, id);
    }
  }

  lemma {:induction false} RunsKeepNamed(server: Server, steps: seq<Step>, id: string)
    ensures ResultNamed(Run(Init(server), steps), id)
  {
    if steps != [] {
      RunsKeepNamed(server, steps[..|steps| - 1], id);
      RunsAreWired(server, steps[..|steps| - 1]);
      StepKeepsNamed(Run(Init(server), steps[..|steps| - 1]), steps[|steps| - 1], id);
      hide Do, ResultNamed, Wired;
    }
  }
}
