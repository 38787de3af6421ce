/** What every run of the mail gateway keeps, whatever crashes cut it short. */
module MailSafety {
  import opened Common
  import opened MailTables
  import opened MailServices
  import opened MailLifecycle

  // ----- the invariant of a run -----

  predicate WentOut(outbox: seq<Delivery>, a: string) {
    exists i :: 0 <= i < |outbox| && outbox[i].approval == Some(a)
  }

  /** A running execution holds its approval, and carries the approved proposal. */
  ghost predicate RunningOk(w: World) {
    forall a :: a in w.running ==>
      && w.up && InProgress(w.t, a) && w.t.approvals[a].status == Approved
      && w.running[a].proposal == w.t.approvals[a].proposal
      && (w.running[a].transmitted ==> WentOut(w.outbox, a))
  }

  /** A delivery for this approval, which is approved and shows the delivered proposal. */
  predicate ShowsApproved(t: Tables, d: Delivery) {
    && d.approval.Some? && d.approval.value in t.approvals
    && t.approvals[d.approval.value].status == Approved && t.approvals[d.approval.value].proposal == d.proposal
  }

  /** A delivery is approved, or a direct mailbox action; either way it passed the guards. */
  predicate DeliveryOk(t: Tables, d: Delivery) {
    && Executes(d.proposal, d.approval.Some?, Some(d.sender))
    && if d.approval.Some? then ShowsApproved(t, d) else DirectAction(d.proposal.action)
  }

  ghost predicate OutboxOk(w: World) {
    forall i :: 0 <= i < |w.outbox| ==> DeliveryOk(w.t, w.outbox[i])
  }

  ghost predicate WorldOk(w: World) {
    Linked(w.t) && RunningOk(w) && OutboxOk(w)
  }

  // ----- each step -----

  lemma StepFreezes(w: World, op: Op)
    ensures Frozen(w.t, Do(w, op).t)
  {
    hide TablesAfter, Executes;
    match op {
      case Start(_) =>
      case Transmit(_, _) =>
      case Conclude(_, _) =>
      case Crash =>
      case Restart =>
      case _ => CallsFreeze(w.t, op);
    }
  }

  lemma ConcludeKeepsLinked(w: World, id: string, ok: bool)
    requires Linked(w.t) && RunningOk(w)
    ensures Linked(DoConclude(w, id, ok).t)
  {
    if id in w.running {
      assert ApprovalOk(w.t.approvals[id]);
      if !ok {
        ExecutionKeepsLinked(w.t, id, Failed);
      } else if w.running[id].transmitted {
        ExecutionKeepsLinked(w.t, id, if Sends(w.running[id].proposal.action) then Sent else Completed);
      }
    }
  }

  lemma StartKeepsLinked(w: World, id: string)
    requires Linked(w.t)
    ensures Linked(DoStart(w, id).t)
  {
    if Claimable(w.t, id) {
      assert ApprovalOk(w.t.approvals[id]);
      ExecutionKeepsLinked(w.t, id, Executing);
    }
  }

  lemma StepKeepsLinked(w: World, op: Op)
    requires Linked(w.t) && RunningOk(w)
    ensures Linked(Do(w, op).t)
  {
    hide Linked, RunningOk, TablesAfter, DoStart, DoConclude, RecoverStep;
    match op {
      case Start(id) => StartKeepsLinked(w, id);
      case Transmit(_, _) =>
      case Conclude(id, ok) => ConcludeKeepsLinked(w, id, ok);
      case Crash =>
      case Restart => RecoverKeepsLinked(w.t);
      case _ => CallsKeepLinked(w.t, op);
    }
  }

  /** A call leaves a decided approval alone; only the owner's reconciliation touches it. */
  lemma CallsKeepDecided(t: Tables, op: Op, a: string)
    requires a in t.approvals && t.approvals[a].status != Pending
    requires op.Reconcile? && op.id == a ==> t.approvals[a].execution != Uncertain
    ensures a in TablesAfter(t, op).approvals && TablesAfter(t, op).approvals[a] == t.approvals[a]
  {
  }

  predicate Unclaimed(t: Tables, a: string) {
    a in t.approvals ==> t.approvals[a].execution in {NotApplicable, Ready}
  }

  /** A call starts no execution. */
  lemma CallsKeepUnclaimed(t: Tables, op: Op, a: string)
    requires Unclaimed(t, a) && !op.Reconcile?
    ensures Unclaimed(TablesAfter(t, op), a)
  {
  }

  lemma CallsKeepRunning(w: World, op: Op)
    requires RunningOk(w)
    ensures RunningOk(w.(t := TablesAfter(w.t, op)))
  {
    forall a | a in w.running
      ensures InProgress(TablesAfter(w.t, op), a) && TablesAfter(w.t, op).approvals[a] == w.t.approvals[a]
    {
      CallsKeepDecided(w.t, op, a);
    }
  }

  lemma TransmitKeepsRunning(w: World, id: string, sender: Option<string>)
    requires RunningOk(w)
    ensures RunningOk(DoTransmit(w, id, sender))
  {
    var w' := DoTransmit(w, id, sender);
    forall a | a in w'.running && w'.running[a].transmitted
      ensures WentOut(w'.outbox, a)
    {
      if !w.running[a].transmitted {
        assert w'.outbox[|w.outbox|].approval == Some(a);
      } else {
        var i :| 0 <= i < |w.outbox| && w.outbox[i].approval == Some(a);
        assert w'.outbox[i].approval == Some(a);
      }
    }
  }

  lemma DirectKeepsRunning(w: World, p: Proposal, sender: Option<string>)
    requires RunningOk(w)
    ensures RunningOk(DoDirect(w, p, sender))
  {
    var w' := DoDirect(w, p, sender);
    forall a | a in w.running && w.running[a].transmitted
      ensures WentOut(w'.outbox, a)
    {
      var i :| 0 <= i < |w.outbox| && w.outbox[i].approval == Some(a);
      assert w'.outbox[i].approval == Some(a);
    }
  }

  lemma StepKeepsRunning(w: World, op: Op)
    requires RunningOk(w)
    ensures RunningOk(Do(w, op))
  {
    hide TablesAfter, DoTransmit, DoDirect;
    match op {
      case Start(_) =>
      case Transmit(id, sender) => TransmitKeepsRunning(w, id, sender);
      case Analyze(_, _, p, _, sender, _) =>
        DirectKeepsRunning(w, p, sender);
        CallsKeepRunning(w, op);
      case Conclude(_, _) =>
      case Crash =>
      case Restart =>
      case _ => CallsKeepRunning(w, op);
    }
  }

  /** A step adds at most one delivery, and that is in order. */
  ghost predicate AddsDelivery(w: World, w': World) {
    w'.outbox == w.outbox || exists d :: w'.outbox == w.outbox + [d] && w'.t == w.t && DeliveryOk(w.t, d)
  }

  lemma TransmitAdds(w: World, id: string, sender: Option<string>)
    requires RunningOk(w)
    ensures AddsDelivery(w, DoTransmit(w, id, sender))
  {
    if DoTransmit(w, id, sender) != w {
      assert sender == Some(sender.value);
      assert DeliveryOk(w.t, Delivery(Some(id), w.running[id].proposal, sender.value));
    }
  }

  lemma DirectAdds(w: World, p: Proposal, sender: Option<string>)
    ensures AddsDelivery(w, DoDirect(w, p, sender))
  {
    if DoDirect(w, p, sender) != w {
      assert sender == Some(sender.value);
      assert DeliveryOk(w.t, Delivery(None, p, sender.value));
    }
  }

  lemma StepAdds(w: World, op: Op)
    requires RunningOk(w)
    ensures AddsDelivery(w, Do(w, op))
  {
    hide TablesAfter, RunningOk, DeliveryOk, DoTransmit, DoDirect;
    match op {
      case Transmit(id, sender) => TransmitAdds(w, id, sender);
      case Analyze(_, _, p, _, sender, _) => DirectAdds(w, p, sender);
      case _ =>
    }
  }

  lemma StepKeepsOutbox(w: World, op: Op)
    requires RunningOk(w) && OutboxOk(w)
    ensures OutboxOk(Do(w, op))
  {
    var w' := Do(w, op);
    StepFreezes(w, op);
    StepAdds(w, op);
    hide Do, Executes, RunningOk;
    forall i | 0 <= i < |w'.outbox|
      ensures DeliveryOk(w'.t, w'.outbox[i])
    {
      if i < |w.outbox| {
        assert DeliveryOk(w.t, w.outbox[i]);
      }
    }
  }

  lemma StepKeepsWorld(w: World, op: Op)
    requires WorldOk(w)
    ensures WorldOk(Do(w, op))
  {
    hide Linked, RunningOk, OutboxOk, Do;
    StepKeepsLinked(w, op);
    StepKeepsRunning(w, op);
    StepKeepsOutbox(w, op);
  }

  lemma {:induction false} RunsKeepWorld(w: World, ops: seq<Op>)
    requires WorldOk(w)
    ensures WorldOk(Run(w, ops))
  {
    hide WorldOk, Do;
    if ops != [] {
      RunsKeepWorld(w, ops[..|ops| - 1]);
      StepKeepsWorld(Run(w, ops[..|ops| - 1]), ops[|ops| - 1]);
    }
  }

  // ----- main results -----

  /** In every reachable state a draft is sent exactly when the approval it is linked to was
      sent; an open draft is unlinked; a waiting one has a pending or an approved, unsent
      approval; links are injective; draft and approval show the same proposal. */
  lemma SentExactlyWithApproval(ops: seq<Op>, d: string)
    requires d in Run(EMPTY, ops).t.drafts
    ensures var t := Run(EMPTY, ops).t;
            var draft := t.drafts[d];
            && (draft.status == Delivered <==>
                  draft.approvalId.Some? && draft.approvalId.value in t.approvals
                  && t.approvals[draft.approvalId.value].execution == Sent)
            && (draft.status == Open ==> draft.approvalId == None)
            && (draft.status == ApprovalPending ==>
                  draft.approvalId.Some? && draft.approvalId.value in t.approvals
                  && t.approvals[draft.approvalId.value].status in {Pending, Approved}
                  && t.approvals[draft.approvalId.value].execution != Sent)
            && (draft.approvalId.Some? ==>
                  draft.approvalId.value in t.approvals && draft.proposal == t.approvals[draft.approvalId.value].proposal)
            && (forall e :: e in t.drafts && e != d && draft.approvalId.Some? ==> t.drafts[e].approvalId != draft.approvalId)
            && ColumnsOk(draft)
  {
    RunsKeepWorld(EMPTY, ops);
    hide Run;
    var t := Run(EMPTY, ops).t;
    assert DraftOk(t.drafts[d], t.approvals);
    if t.drafts[d].approvalId.Some? {
      assert ApprovalOk(t.approvals[t.drafts[d].approvalId.value]);
    }
  }

  /** Once decided, an approval keeps its decision and its proposal in every run. */
  lemma {:induction false} RunsFreezeDecided(w: World, ops: seq<Op>, a: string)
    requires a in w.t.approvals
    ensures a in Run(w, ops).t.approvals
    ensures w.t.approvals[a].status != Pending ==>
              && Run(w, ops).t.approvals[a].status == w.t.approvals[a].status
              && Run(w, ops).t.approvals[a].proposal == w.t.approvals[a].proposal
  {
    if ops != [] {
      var before := Run(w, ops[..|ops| - 1]);
      RunsFreezeDecided(w, ops[..|ops| - 1], a);
      StepFreezes(before, ops[|ops| - 1]);
      hide Do, Run;
    }
  }

  lemma {:induction false} RunSplit(w: World, ops: seq<Op>, i: nat)
    requires i <= |ops|
    ensures Run(w, ops) == Run(Run(w, ops[..i]), ops[i..])
  {
    if i == |ops| {
      assert ops[..i] == ops;
    } else {
      hide Do;
      var before := ops[..|ops| - 1];
      RunSplit(w, before, i);
      assert before[..i] == ops[..i];
      assert ops[i..][..|ops| - i - 1] == before[i..];
    }
  }

  lemma ApprovalKeepsProposal(w: World, a: string)
    requires w.up && DecideStep(w.t, a, true).Success?
    ensures var t' := Do(w, Decide(a, true)).t;
            && a in t'.approvals && t'.approvals[a].status == Approved
            && t'.approvals[a].proposal == w.t.approvals[a].proposal
  {
  }

  /** What leaves the gateway for an approval is the proposal that was stored when the owner
      approved it, and what every draft linked to that approval still shows. */
  lemma DeliveredIsWhatWasApproved(ops: seq<Op>, i: nat, k: nat, d: string)
    requires i < |ops| && ops[i].Decide? && ops[i].approve
    requires DecideStep(Run(EMPTY, ops[..i]).t, ops[i].id, true).Success? && Run(EMPTY, ops[..i]).up
    requires k < |Run(EMPTY, ops).outbox| && Run(EMPTY, ops).outbox[k].approval == Some(ops[i].id)
    ensures Run(EMPTY, ops).outbox[k].proposal == Run(EMPTY, ops[..i]).t.approvals[ops[i].id].proposal
    ensures var t := Run(EMPTY, ops).t;
            d in t.drafts && t.drafts[d].approvalId == Some(ops[i].id) ==>
              t.drafts[d].proposal == Run(EMPTY, ops).outbox[k].proposal && ColumnsOk(t.drafts[d])
  {
    var a := ops[i].id;
    var before := Run(EMPTY, ops[..i]);
    var decided := Run(EMPTY, ops[..i + 1]);
    assert ops[..i + 1] == ops[..i] + [ops[i]];
    RunMore(EMPTY, ops[..i], ops[i]);
    assert ops[i] == Decide(a, true);
    ApprovalKeepsProposal(before, a);
    hide Do, DecideStep;
    RunSplit(EMPTY, ops, i + 1);
    RunsFreezeDecided(decided, ops[i + 1..], a);
    RunsKeepWorld(EMPTY, ops);
    hide Run;
    var w := Run(EMPTY, ops);
    assert DeliveryOk(w.t, w.outbox[k]);
    hide Executes;
    if d in w.t.drafts {
      assert DraftOk(w.t.drafts[d], w.t.approvals);
    }
  }

  /** Whatever leaves the gateway was approved, with exactly this proposal, or is a direct
      mailbox action: marking read, moving or archiving. */
  lemma OutboxIsApprovedOrDirect(ops: seq<Op>, k: nat)
    requires k < |Run(EMPTY, ops).outbox|
    ensures var d := Run(EMPTY, ops).outbox[k];
            ShowsApproved(Run(EMPTY, ops).t, d) || (d.approval == None && d.proposal.action in {MarkRead, Move, Archive})
  {
    RunsKeepWorld(EMPTY, ops);
    hide Run;
    assert DeliveryOk(Run(EMPTY, ops).t, Run(EMPTY, ops).outbox[k]);
  }

  /** Every mail sent and every deletion was approved; a mail has a recipient and a text, and
      a reply went to the sender of its source message. */
  lemma EverySentMailWasApproved(ops: seq<Op>, k: nat)
    requires k < |Run(EMPTY, ops).outbox|
    ensures var d := Run(EMPTY, ops).outbox[k];
            && (d.proposal.action in {SendReply, Forward, Delete} ==> ShowsApproved(Run(EMPTY, ops).t, d))
            && (d.proposal.action in {SendReply, Forward} ==>
                  d.proposal.recipient.GetOr("") != "" && d.proposal.body.GetOr("") != "")
            && (d.proposal.action == SendReply ==> CaseFold(d.proposal.recipient.value) == CaseFold(d.sender))
  {
    RunsKeepWorld(EMPTY, ops);
    hide Run;
    assert DeliveryOk(Run(EMPTY, ops).t, Run(EMPTY, ops).outbox[k]);
  }

  predicate HasExecution(t: Tables, a: string, execution: MailTables.Execution) {
    a in t.approvals && t.approvals[a].execution == execution
  }

  predicate Settled(t: Tables, a: string) {
    a in t.approvals && t.approvals[a].execution in {Sent, Completed}
  }

  lemma StepSettles(w: World, op: Op, a: string)
    requires WorldOk(w)
    requires Settled(Do(w, op).t, a) && !Settled(w.t, a) && op != Reconcile(a, true)
    ensures WentOut(w.outbox, a)
  {
    hide TablesAfter;
    match op {
      case Start(_) =>
      case Transmit(_, _) =>
      case Conclude(id, ok) =>
      case Crash =>
      case Restart =>
      case Reconcile(_, _) => ReconcileSettles(w.t, op, a);
      case _ => CallsKeepHeld(w.t, op, a);
    }
  }

  lemma ReconcileSettles(t: Tables, op: Op, a: string)
    requires op.Reconcile? && op != Reconcile(a, true)
    ensures Settled(TablesAfter(t, op), a) ==> Settled(t, a)
  {
  }

  lemma StepOnlyAddsDeliveries(w: World, op: Op, a: string)
    requires RunningOk(w) && WentOut(w.outbox, a)
    ensures WentOut(Do(w, op).outbox, a)
  {
    StepAdds(w, op);
    hide Do, RunningOk, DeliveryOk;
    var i :| 0 <= i < |w.outbox| && w.outbox[i].approval == Some(a);
    assert Do(w, op).outbox[i].approval == Some(a);
  }

  /** An execution is recorded as sent or completed only if its delivery took place, or the
      owner confirmed it. */
  lemma {:induction false} RecordedMeansDelivered(ops: seq<Op>, a: string)
    requires Settled(Run(EMPTY, ops).t, a)
    ensures WentOut(Run(EMPTY, ops).outbox, a) || Reconcile(a, true) in ops
  {
    if ops != [] {
      var before := ops[..|ops| - 1];
      var w, op := Run(EMPTY, before), ops[|ops| - 1];
      RunsKeepWorld(EMPTY, before);
      hide Do, Linked, RunningOk, OutboxOk;
      if Settled(w.t, a) {
        RecordedMeansDelivered(before, a);
      } else if op != Reconcile(a, true) {
        StepSettles(w, op, a);
      }
      if WentOut(w.outbox, a) {
        StepOnlyAddsDeliveries(w, op, a);
      }
    }
  }

  // ----- executions and deliveries -----

  /** 1 while an approval is executing, uncertain or done. */
  function Held(t: Tables, a: string): nat {
    if a in t.approvals && t.approvals[a].execution in {Executing, Uncertain, Sent, Completed} then 1 else 0
  }

  lemma CallsKeepHeld(t: Tables, op: Op, a: string)
    requires Linked(t) && !op.Reconcile?
    ensures Held(TablesAfter(t, op), a) == Held(t, a)
    ensures Settled(TablesAfter(t, op), a) == Settled(t, a)
  {
    hide TablesAfter, DraftOk, Injective;
    if a in t.approvals && t.approvals[a].status != Pending {
      CallsKeepDecided(t, op, a);
    } else {
      if a in t.approvals {
        assert ApprovalOk(t.approvals[a]);
      }
      CallsKeepUnclaimed(t, op, a);
    }
  }

  predicate Starts(w: World, op: Op, a: string) {
    op == Start(a) && w.up && Claimable(w.t, a)
  }

  /** The ways back to a claimable state: a recorded failure, a restart after a crash for an
      action that does not send, and the owner's decision to retry an uncertain send. */
  predicate Releases(w: World, op: Op, a: string) {
    match op
    case Conclude(id, ok) => id == a && !ok && a in w.running
    case Restart => !w.up && InProgress(w.t, a) && !Sends(w.t.approvals[a].action)
    case Reconcile(id, alreadySent) => id == a && !alreadySent && w.up && ReconcileStep(w.t, a, false).Success?
    case _ => false
  }

  function StartCount(w: World, ops: seq<Op>, a: string): nat {
    if ops == [] then 0
    else
      var before := ops[..|ops| - 1];
      StartCount(w, before, a) + if Starts(Run(w, before), ops[|ops| - 1], a) then 1 else 0
  }

  function ReleaseCount(w: World, ops: seq<Op>, a: string): nat {
    if ops == [] then 0
    else
      var before := ops[..|ops| - 1];
      ReleaseCount(w, before, a) + if Releases(Run(w, before), ops[|ops| - 1], a) then 1 else 0
  }

  lemma StartBalances(w: World, id: string, a: string)
    ensures Held(DoStart(w, id).t, a) == Held(w.t, a) + (if Starts(w, Start(id), a) then 1 else 0)
  {
  }

  lemma ConcludeBalances(w: World, id: string, ok: bool, a: string)
    requires a in w.running ==> InProgress(w.t, a)
    ensures Held(DoConclude(w, id, ok).t, a) + (if Releases(w, Conclude(id, ok), a) then 1 else 0) == Held(w.t, a)
  {
  }

  lemma RestartBalances(w: World, a: string)
    requires InProgress(w.t, a) ==> w.t.approvals[a].status == Approved
    ensures Held(DoRestart(w).t, a) + (if Releases(w, Restart, a) then 1 else 0) == Held(w.t, a)
  {
  }

  lemma StepBalances(w: World, op: Op, a: string)
    requires Linked(w.t) && RunningOk(w)
    ensures Held(Do(w, op).t, a) + (if Releases(w, op, a) then 1 else 0)
         == Held(w.t, a) + (if Starts(w, op, a) then 1 else 0)
  {
    if a in w.t.approvals {
      assert ApprovalOk(w.t.approvals[a]);
    }
    assert a in w.running ==> InProgress(w.t, a);
    hide Linked, RunningOk, TablesAfter, Executes, ApprovalOk, Held, DoStart, DoConclude, DoRestart;
    match op {
      case Start(id) => StartBalances(w, id, a);
      case Transmit(_, _) =>
      case Conclude(id, ok) => ConcludeBalances(w, id, ok, a);
      case Crash =>
      case Restart => RestartBalances(w, a);
      case Reconcile(_, _) => ReconcileBalances(w.t, op, a);
      case _ => CallsKeepHeld(w.t, op, a);
    }
  }

  lemma ReconcileBalances(t: Tables, op: Op, a: string)
    requires op.Reconcile?
    ensures Held(TablesAfter(t, op), a) + (if op == Reconcile(a, false) && ReconcileStep(t, a, false).Success? then 1 else 0)
         == Held(t, a)
  {
  }

  /** Every execution that a run starts was released again or is still held. */
  lemma {:induction false} StartsBalanceReleases(w: World, ops: seq<Op>, a: string)
    requires WorldOk(w)
    ensures StartCount(w, ops, a) + Held(w.t, a) == ReleaseCount(w, ops, a) + Held(Run(w, ops).t, a)
  {
    hide Do, Linked, RunningOk, OutboxOk, Starts, Releases, Held;
    if ops != [] {
      var before := ops[..|ops| - 1];
      RunsKeepWorld(w, before);
      StartsBalanceReleases(w, before, a);
      StepBalances(Run(w, before), ops[|ops| - 1], a);
    }
  }

  /** No two executions of one approval overlap: nothing starts while one is running. */
  lemma ExecutionsNeverOverlap(ops: seq<Op>, op: Op, a: string)
    requires Starts(Run(EMPTY, ops), op, a)
    ensures a !in Run(EMPTY, ops).running
    ensures Run(EMPTY, ops).t.approvals[a].status == Approved
  {
    RunsKeepWorld(EMPTY, ops);
    hide Run;
  }

  function DeliveryCount(outbox: seq<Delivery>, a: string): nat {
    Count(outbox, (d: Delivery) => d.approval == Some(a))
  }

  /** 1 while an execution of `a` has not transmitted yet. */
  function Waiting(w: World, a: string): nat {
    if a in w.running && !w.running[a].transmitted then 1 else 0
  }

  lemma StepDelivers(w: World, op: Op, a: string)
    ensures DeliveryCount(Do(w, op).outbox, a) + Waiting(Do(w, op), a)
         <= DeliveryCount(w.outbox, a) + Waiting(w, a) + (if Starts(w, op, a) then 1 else 0)
  {
    hide TablesAfter, DeliveryCount, DoTransmit, DoDirect;
    match op {
      case Transmit(id, sender) => TransmitDelivers(w, id, sender, a);
      case Analyze(_, _, p, _, sender, _) => DirectDelivers(w, p, sender, a);
      case _ =>
    }
  }

  lemma OneMoreDelivery(outbox: seq<Delivery>, d: Delivery, a: string)
    ensures DeliveryCount(outbox + [d], a) == DeliveryCount(outbox, a) + if d.approval == Some(a) then 1 else 0
  {
    hide Count;
    CountAppend(outbox, d, (d: Delivery) => d.approval == Some(a));
  }

  lemma TransmitDelivers(w: World, id: string, sender: Option<string>, a: string)
    ensures DeliveryCount(DoTransmit(w, id, sender).outbox, a) + Waiting(DoTransmit(w, id, sender), a)
         == DeliveryCount(w.outbox, a) + Waiting(w, a)
  {
    if id in w.running && Executes(w.running[id].proposal, true, sender) {
      OneMoreDelivery(w.outbox, Delivery(Some(id), w.running[id].proposal, sender.value), a);
    }
    hide DeliveryCount, Executes;
  }

  lemma DirectDelivers(w: World, p: Proposal, sender: Option<string>, a: string)
    ensures DeliveryCount(DoDirect(w, p, sender).outbox, a) == DeliveryCount(w.outbox, a)
    ensures Waiting(DoDirect(w, p, sender), a) == Waiting(w, a)
  {
    if Executes(p, false, sender) {
      OneMoreDelivery(w.outbox, Delivery(None, p, sender.value), a);
    }
    hide DeliveryCount, Executes;
  }

  lemma {:induction false} DeliveriesAtMostStarts(ops: seq<Op>, a: string)
    ensures DeliveryCount(Run(EMPTY, ops).outbox, a) + Waiting(Run(EMPTY, ops), a) <= StartCount(EMPTY, ops, a)
  {
    hide Do, DeliveryCount, Waiting, Starts;
    if ops == [] {
      assert DeliveryCount([], a) == 0 && Waiting(EMPTY, a) == 0 by { NothingYet(a); }
    } else {
      DeliveriesAtMostStarts(ops[..|ops| - 1], a);
      StepDelivers(Run(EMPTY, ops[..|ops| - 1]), ops[|ops| - 1], a);
    }
  }

  lemma NothingYet(a: string)
    ensures DeliveryCount([], a) == 0 && Waiting(EMPTY, a) == 0
  {
  }

  /** One approval is delivered at most once more than it was released. A crash alone never
      releases a send, so it never makes a mail go out twice. */
  lemma DeliveriesAtMostReleasesPlusOne(ops: seq<Op>, a: string)
    ensures DeliveryCount(Run(EMPTY, ops).outbox, a) <= ReleaseCount(EMPTY, ops, a) + 1
  {
    DeliveriesAtMostStarts(ops, a);
    StartsBalanceReleases(EMPTY, ops, a);
  }

  /** Sent and completed are absorbing. */
  lemma {:induction false} SettledIsAbsorbing(w: World, ops: seq<Op>, a: string)
    requires WorldOk(w) && Settled(w.t, a)
    ensures HasExecution(Run(w, ops).t, a, w.t.approvals[a].execution)
  {
    hide Do, RunningOk, OutboxOk, DraftOk, Injective, ApprovalOk;
    if ops != [] {
      var before := ops[..|ops| - 1];
      RunsKeepWorld(w, before);
      SettledIsAbsorbing(w, before, a);
      StepKeepsSettled(Run(w, before), ops[|ops| - 1], a);
    }
  }

  lemma StepKeepsSettled(w: World, op: Op, a: string)
    requires Settled(w.t, a) && ApprovalOk(w.t.approvals[a])
    ensures HasExecution(Do(w, op).t, a, w.t.approvals[a].execution)
  {
    hide TablesAfter;
    match op {
      case Start(_) =>
      case Transmit(_, _) =>
      case Conclude(_, _) =>
      case Crash =>
      case Restart =>
      case _ => CallsKeepDecided(w.t, op, a);
    }
  }

  // ----- discarding -----

  /** In a reachable state a draft can be discarded unless it was sent or its approval was
      approved; a pending approval is rejected by the same step. */
  lemma DiscardRejectsPending(t: Tables, d: string)
    requires Linked(t) && d in t.drafts
    ensures var draft := t.drafts[d];
            DiscardStep(t, d).Success? <==>
              draft.status != Delivered
              && (draft.approvalId.Some? ==> t.approvals[draft.approvalId.value].status != Approved)
    ensures DiscardStep(t, d).Success? ==>
              var t' := DiscardStep(t, d).value;
              && t'.drafts[d].status == Discarded && t'.drafts[d].approvalId == t.drafts[d].approvalId
              && (t.drafts[d].approvalId.Some? ==> t'.approvals[t.drafts[d].approvalId.value].status == Rejected)
  {
  }

  /** A discarded draft, linked to a rejected approval or to none. */
  predicate Gone(t: Tables, d: string) {
    && d in t.drafts && t.drafts[d].status == Discarded
    && (t.drafts[d].approvalId.Some? ==>
          && t.drafts[d].approvalId.value in t.approvals
          && t.approvals[t.drafts[d].approvalId.value].status == Rejected
          && t.approvals[t.drafts[d].approvalId.value].execution == NotApplicable)
  }

  /** A call that can bring this discarded draft back: the submission of an unlinked draft
      whose source message is named and stored. */
  predicate Revives(t: Tables, op: Op, d: string) {
    op.Submit? && op.draftId == d && Unlinked(t, d) && OrNone(t.drafts[d].proposal.messageId).Some? && op.sender.Some?
  }

  /** The draft is still discarded, with the same link and the same source message. */
  predicate StaysGone(t: Tables, t': Tables, d: string) {
    && Gone(t, d) && Gone(t', d)
    && t'.drafts[d].approvalId == t.drafts[d].approvalId
    && t'.drafts[d].proposal.messageId == t.drafts[d].proposal.messageId
  }

  lemma UpdateKeepsGone(t: Tables, d: string, d': string, p: Proposal)
    requires Gone(t, d)
    requires d' == d ==> p.messageId == t.drafts[d].proposal.messageId
    ensures StaysGone(t, After(t, UpdateDraftStep(t, d', p)), d)
  {
  }

  lemma SubmitKeepsGone(t: Tables, d: string, d': string, a: string, p: Proposal, cut: nat)
    requires Gone(t, d) && d' != d
    ensures StaysGone(t, SubmitTables(t, d', a, p, cut), d)
  {
    UpdateKeepsGone(t, d, d', p);
    var updated := UpdateDraftStep(t, d', p);
    if updated.Success? {
      assert StaysGone(t, updated.value, d);
      hide UpdateDraftStep;
    }
  }

  lemma CallsKeepGone(t: Tables, op: Op, d: string)
    requires Gone(t, d) && !Revives(t, op, d)
    ensures StaysGone(t, TablesAfter(t, op), d)
  {
    hide UpdateDraftStep, SubmitTables;
    match op {
      case Analyze(_, _, _, _, _, _) => hide PlannedArtifacts;
      case PlainDraft(_, _) =>
      case Edit(d', subject, body, recipient, sender, stamped) =>
        if d' in t.drafts {
          var p := EditedProposal(t.drafts[d'].proposal, subject, body, recipient, sender, _ => stamped);
          if p.Success? {
            UpdateKeepsGone(t, d, d', p.value);
          }
        }
      case Submit(d', a, sender, stamped, cut) =>
        if d' != d && Unlinked(t, d') {
          var p := SubmittedProposal(t.drafts[d'].proposal, sender, _ => stamped);
          if p.Success? {
            SubmitKeepsGone(t, d, d', a, p.value, cut);
          }
        }
      case Decide(_, _) =>
      case Discard(_) =>
      case Reconcile(_, _) =>
      case _ =>
    }
  }

  lemma StepKeepsGone(w: World, op: Op, d: string)
    requires Gone(w.t, d) && !Revives(w.t, op, d)
    ensures StaysGone(w.t, Do(w, op).t, d)
  {
    hide TablesAfter, Executes;
    match op {
      case Start(_) =>
      case Transmit(_, _) =>
      case Conclude(_, _) =>
      case Crash =>
      case Restart =>
      case _ => CallsKeepGone(w.t, op, d);
    }
  }

  /** No submission of this draft finds its source message stored. */
  predicate SourceMissing(ops: seq<Op>, d: string) {
    forall i :: 0 <= i < |ops| && ops[i].Submit? && ops[i].draftId == d ==> ops[i].sender == None
  }

  lemma {:induction false} GoneStaysGone(w: World, ops: seq<Op>, d: string)
    requires Gone(w.t, d)
    requires w.t.drafts[d].approvalId.Some? || OrNone(w.t.drafts[d].proposal.messageId) == None || SourceMissing(ops, d)
    ensures StaysGone(w.t, Run(w, ops).t, d)
  {
    hide Do, Gone;
    if ops != [] {
      GoneStaysGone(w, ops[..|ops| - 1], d);
      StepKeepsGone(Run(w, ops[..|ops| - 1]), ops[|ops| - 1], d);
    }
  }

  lemma DiscardedIsGone(t: Tables, d: string)
    requires Linked(t) && d in t.drafts && t.drafts[d].status == Discarded
    ensures Gone(t, d) && t.drafts[d].proposal.messageId == t.drafts[d].messageId
  {
    assert DraftOk(t.drafts[d], t.approvals);
    if t.drafts[d].approvalId.Some? {
      assert ApprovalOk(t.approvals[t.drafts[d].approvalId.value]);
    }
  }

  predicate StillDiscarded(w: World, ops: seq<Op>, d: string) {
    d in Run(w, ops).t.drafts && Run(w, ops).t.drafts[d].status == Discarded
  }

  lemma SubmitTablesLink(t: Tables, d: string, a: string, p: Proposal)
    requires Unlinked(t, d) && t.drafts[d].status == Discarded && a !in t.approvals
    requires p.mailboxId == t.drafts[d].mailboxId && p.messageId == t.drafts[d].messageId
    ensures var after := SubmitTables(t, d, a, p, 3).drafts;
            d in after && after[d].status == ApprovalPending && after[d].approvalId == Some(a)
  {
  }

  /** When one submission brings a discarded draft back: it is unlinked, names its source
      message, that is stored, and a forward has a recipient. `a` is any unused approval id. */
  lemma SubmissionRevivesExactly(t: Tables, d: string, a: string, sender: Option<string>, stamped: string)
    requires Linked(t) && d in t.drafts && t.drafts[d].status == Discarded && a !in t.approvals
    ensures var draft := t.drafts[d];
            var after := TablesAfter(t, Submit(d, a, sender, stamped, 3)).drafts;
            && d in after
            && (after[d].status != Discarded <==>
                  && draft.approvalId == None && OrNone(draft.messageId).Some? && sender.Some?
                  && (SubmittedAction(draft.proposal, sender.value) == Forward ==> OrNone(draft.recipient).Some?))
            && (after[d].status != Discarded ==> after[d].status == ApprovalPending && after[d].approvalId == Some(a))
  {
    assert DraftOk(t.drafts[d], t.approvals);
    hide SubmittedAction, SubmitTables, Linked;
    if Unlinked(t, d) {
      var p := SubmittedProposal(t.drafts[d].proposal, sender, _ => stamped);
      if p.Success? {
        SubmitTablesLink(t, d, a, p.value);
      }
    }
  }

  lemma RunMore(w: World, ops: seq<Op>, op: Op)
    ensures Run(w, ops + [op]) == Do(Run(w, ops), op)
  {
    assert (ops + [op])[..|ops|] == ops;
  }

  /** An edit that gives the draft a recipient, and its submission. */
  function Revival(d: string, a: string): seq<Op> {
    [Edit(d, "s", "b", Some("x"), Some("x"), "b"), Submit(d, a, Some("x"), "b", 3)]
  }

  lemma EditOpensRevival(t: Tables, d: string)
    requires Linked(t) && d in t.drafts && t.drafts[d].status == Discarded
    requires t.drafts[d].approvalId == None && OrNone(t.drafts[d].messageId).Some?
    ensures var t' := EditTables(t, d, "s", "b", Some("x"), Some("x"), "b");
            && t'.approvals == t.approvals && d in t'.drafts && t'.drafts[d].status == Discarded
            && t'.drafts[d].approvalId == None && t'.drafts[d].messageId == t.drafts[d].messageId
            && t'.drafts[d].recipient == Some("x")
  {
    assert DraftOk(t.drafts[d], t.approvals);
  }

  lemma RevivalTables(t: Tables, d: string, a: string)
    requires Linked(t) && d in t.drafts && t.drafts[d].status == Discarded && a !in t.approvals
    requires t.drafts[d].approvalId == None && OrNone(t.drafts[d].messageId).Some?
    ensures var edited := EditTables(t, d, "s", "b", Some("x"), Some("x"), "b");
            var after := SubmitCall(edited, d, a, Some("x"), "b", 3).drafts;
            d in after && after[d].status == ApprovalPending
  {
    EditOpensRevival(t, d);
    CallsKeepLinked(t, Edit(d, "s", "b", Some("x"), Some("x"), "b"));
    hide Linked, EditTables, SubmitCall;
    SubmissionRevivesExactly(EditTables(t, d, "s", "b", Some("x"), Some("x"), "b"), d, a, Some("x"), "b");
  }

  lemma TwoCalls(w: World, first: Op, second: Op)
    requires w.up && first.Edit? && second.Submit?
    ensures Run(w, [first, second]).t == TablesAfter(TablesAfter(w.t, first), second)
  {
    hide TablesAfter;
    RunMore(w, [], first);
    RunMore(w, [] + [first], second);
    assert [] + [first] + [second] == [first, second];
    assert Run(w, []) == w;
    hide Run;
  }

  /** Discarding is final in every run exactly for drafts that are linked or name no source
      message. */
  lemma DiscardedIsTerminalExactly(w: World, d: string, a: string)
    requires WorldOk(w) && w.up && d in w.t.drafts && w.t.drafts[d].status == Discarded && a !in w.t.approvals
    ensures (forall ops :: StillDiscarded(w, ops, d)) <==>
              w.t.drafts[d].approvalId.Some? || OrNone(w.t.drafts[d].messageId) == None
  {
    DiscardedIsGone(w.t, d);
    if w.t.drafts[d].approvalId.Some? || OrNone(w.t.drafts[d].messageId) == None {
      forall ops
        ensures StillDiscarded(w, ops, d)
      {
        GoneStaysGone(w, ops, d);
      }
    } else {
      RevivalTables(w.t, d, a);
      TwoCalls(w, Revival(d, a)[0], Revival(d, a)[1]);
      assert Revival(d, a) == [Revival(d, a)[0], Revival(d, a)[1]];
      hide Run, EditTables, SubmitCall, Linked, RunningOk, OutboxOk;
      assert !StillDiscarded(w, Revival(d, a), d);
    }
  }

  /** A draft whose source message is not stored at any of its submissions stays discarded. */
  lemma DiscardedWithoutSourceIsTerminal(w: World, ops: seq<Op>, d: string)
    requires WorldOk(w) && d in w.t.drafts && w.t.drafts[d].status == Discarded && SourceMissing(ops, d)
    ensures StillDiscarded(w, ops, d)
  {
    DiscardedIsGone(w.t, d);
    GoneStaysGone(w, ops, d);
  }

  predicate Shows(w: World, d: string, status: DraftStatus) {
    d in w.t.drafts && w.t.drafts[d].status == status
  }

  lemma DiscardedAtOnce(p: Proposal)
    requires p.body.Some?
    ensures var ops := [] + [PlainDraft("d", p)] + [Discard("d")];
            var t := Run(EMPTY, ops).t;
            && Run(EMPTY, ops).up && t.approvals == map[] && "d" in t.drafts && t.drafts["d"].status == Discarded
            && t.drafts["d"].approvalId == None && t.drafts["d"].proposal == p && t.drafts["d"].messageId == p.messageId
  {
    var first := PlainDraft("d", p);
    RunMore(EMPTY, [], first);
    RunMore(EMPTY, [] + [first], Discard("d"));
    assert Run(EMPTY, []) == EMPTY;
    hide Run;
  }

  lemma SubmitBringsBack(w: World, d: string, a: string, sender: string, stamped: string)
    requires WorldOk(w) && w.up && d in w.t.drafts && w.t.drafts[d].status == Discarded && a !in w.t.approvals
    requires w.t.drafts[d].approvalId == None && OrNone(w.t.drafts[d].messageId).Some?
    requires w.t.drafts[d].proposal.intended == Some(SendReply)
    ensures Shows(Do(w, Submit(d, a, Some(sender), stamped, 3)), d, ApprovalPending)
  {
    SubmissionRevivesExactly(w.t, d, a, Some(sender), stamped);
    hide SubmitCall, Linked, RunningOk, OutboxOk;
  }

  /** A reply draft that was discarded before anybody submitted it can be submitted after all. */
  lemma DiscardedDraftCanBeSubmitted(p: Proposal, sender: string)
    requires p.body.Some? && p.action == SendReply && p.intended == Some(SendReply) && OrNone(p.messageId).Some?
    ensures var discarded := [] + [PlainDraft("d", p)] + [Discard("d")];
            && Shows(Run(EMPTY, discarded), "d", Discarded)
            && Shows(Run(EMPTY, discarded + [Submit("d", "a", Some(sender), "text", 3)]), "d", ApprovalPending)
  {
    var discarded := [] + [PlainDraft("d", p)] + [Discard("d")];
    hide Run, Do;
    RunsKeepWorld(EMPTY, discarded);
    hide WorldOk, ColumnsOk, StatusOk;
    DiscardedAtOnce(p);
    RunMore(EMPTY, discarded, Submit("d", "a", Some(sender), "text", 3));
    SubmitBringsBack(Run(EMPTY, discarded), "d", "a", sender, "text");
  }
}
