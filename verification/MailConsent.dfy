/** The owner's consent in the mail gateway: only the owner's call approves, nothing that
    needs an approval leaves without one, and what is refused or discarded never leaves. */
module MailConsent {
  import opened Common
  import opened MailTables
  import opened MailServices
  import opened MailLifecycle
  import opened MailSafety

  predicate HasStatus(t: Tables, a: string, status: ApprovalStatus) {
    a in t.approvals && t.approvals[a].status == status
  }

  /** Operation `i` is the owner's decision on the approval, and it takes effect: the gateway
      is up and the approval waits for one. */
  ghost predicate OwnerDecidedAt(ops: seq<Op>, i: int, a: string, approve: bool) {
    && 0 <= i < |ops| && ops[i] == Decide(a, approve)
    && var w := Run(EMPTY, ops[..i]); w.up && HasStatus(w.t, a, Pending)
  }

  ghost predicate OwnerDecided(ops: seq<Op>, a: string, approve: bool) {
    exists i :: OwnerDecidedAt(ops, i, a, approve)
  }

  /** This call discards a draft that is linked to the approval. */
  predicate Drops(t: Tables, op: Op, a: string) {
    op.Discard? && op.draftId in t.drafts && t.drafts[op.draftId].approvalId == Some(a)
  }

  /** Operation `i` discards the draft that waits for this pending approval. */
  ghost predicate DroppedAt(ops: seq<Op>, i: int, a: string) {
    && 0 <= i < |ops|
    && var w := Run(EMPTY, ops[..i]); w.up && HasStatus(w.t, a, Pending) && Drops(w.t, ops[i], a)
  }

  ghost predicate Dropped(ops: seq<Op>, a: string) {
    exists i :: DroppedAt(ops, i, a)
  }

  lemma OwnerDecidedNext(ops: seq<Op>, a: string, approve: bool)
    requires ops != []
    ensures OwnerDecided(ops, a, approve) <==>
              OwnerDecided(ops[..|ops| - 1], a, approve) || OwnerDecidedAt(ops, |ops| - 1, a, approve)
  {
    hide Do, Run;
    var before := ops[..|ops| - 1];
    forall i | 0 <= i < |before|
      ensures OwnerDecidedAt(before, i, a, approve) <==> OwnerDecidedAt(ops, i, a, approve)
    {
      assert before[..i] == ops[..i];
    }
    if i :| OwnerDecidedAt(before, i, a, approve) {
      assert OwnerDecidedAt(ops, i, a, approve);
    }
    if i :| OwnerDecidedAt(ops, i, a, approve) {
      assert i < |before| ==> OwnerDecidedAt(before, i, a, approve);
    }
  }

  lemma DroppedNext(ops: seq<Op>, a: string)
    requires ops != []
    ensures Dropped(ops, a) <==> Dropped(ops[..|ops| - 1], a) || DroppedAt(ops, |ops| - 1, a)
  {
    hide Do, Run;
    var before := ops[..|ops| - 1];
    forall i | 0 <= i < |before|
      ensures DroppedAt(before, i, a) <==> DroppedAt(ops, i, a)
    {
      assert before[..i] == ops[..i];
    }
    if i :| DroppedAt(before, i, a) {
      assert DroppedAt(ops, i, a);
    }
    if i :| DroppedAt(ops, i, a) {
      assert i < |before| ==> DroppedAt(before, i, a);
    }
  }

  // ----- who decides -----

  /** The change that one call makes to the status of one approval. */
  ghost predicate DecidesOnly(t: Tables, t': Tables, a: string, approves: bool, refuses: bool) {
    && (HasStatus(t', a, Approved) <==> HasStatus(t, a, Approved) || (approves && HasStatus(t, a, Pending)))
    && (HasStatus(t', a, Rejected) <==> HasStatus(t, a, Rejected) || (refuses && HasStatus(t, a, Pending)))
  }

  lemma SubmitDecidesNothing(t: Tables, d: string, a': string, p: Proposal, cut: nat, a: string)
    ensures DecidesOnly(t, SubmitTables(t, d, a', p, cut), a, false, false)
  {
    var updated := UpdateDraftStep(t, d, p);
    if updated.Success? {
      assert DecidesOnly(t, updated.value, a, false, false);
      hide UpdateDraftStep;
    }
  }

  lemma DiscardRefuses(t: Tables, d: string, a: string)
    requires Linked(t)
    ensures DecidesOnly(t, After(t, DiscardStep(t, d)), a, false, d in t.drafts && t.drafts[d].approvalId == Some(a))
  {
    if d in t.drafts {
      assert DraftOk(t.drafts[d], t.approvals);
    }
  }

  lemma CallsDecide(t: Tables, op: Op, a: string)
    requires Linked(t)
    ensures DecidesOnly(t, TablesAfter(t, op), a, op == Decide(a, true), op == Decide(a, false) || Drops(t, op, a))
  {
    hide Linked, PlannedArtifacts, EditedProposal, SubmittedProposal, SubmitTables, DiscardStep;
    match op {
      case Submit(d, a', sender, stamped, cut) =>
        if Unlinked(t, d) {
          var p := SubmittedProposal(t.drafts[d].proposal, sender, _ => stamped);
          if p.Success? {
            SubmitDecidesNothing(t, d, a', p.value, cut, a);
          }
        }
      case Discard(d) => DiscardRefuses(t, d, a);
      case _ =>
    }
  }

  lemma SameTablesDecideNothing(t: Tables, a: string)
    ensures DecidesOnly(t, t, a, false, false)
  {
  }

  /** No step but the owner's own call, while the gateway is up, approves; no step but that
      and the discarding of the linked draft refuses. */
  lemma OnlyTheOwnerDecides(w: World, op: Op, a: string)
    requires Linked(w.t)
    ensures DecidesOnly(w.t, Do(w, op).t, a, w.up && op == Decide(a, true),
                        w.up && (op == Decide(a, false) || Drops(w.t, op, a)))
  {
    CallsDecide(w.t, op, a);
    SameTablesDecideNothing(w.t, a);
    hide Linked, TablesAfter, Executes;
    match op {
      case Start(_) =>
      case Transmit(_, _) => hide DecidesOnly;
      case Conclude(_, _) =>
      case Crash => hide DecidesOnly;
      case Restart =>
      case _ => hide DecidesOnly;
    }
  }

  /** In every run an approval is approved exactly if the owner approved it while it was
      pending, and rejected exactly if the owner refused it then or its draft was discarded. */
  lemma {:induction false} RunsFollowTheOwner(ops: seq<Op>, a: string)
    ensures HasStatus(Run(EMPTY, ops).t, a, Approved) <==> OwnerDecided(ops, a, true)
    ensures HasStatus(Run(EMPTY, ops).t, a, Rejected) <==> OwnerDecided(ops, a, false) || Dropped(ops, a)
  {
    if ops != [] {
      var before := ops[..|ops| - 1];
      RunsFollowTheOwner(before, a);
      OwnerDecidedNext(ops, a, true);
      OwnerDecidedNext(ops, a, false);
      DroppedNext(ops, a);
      RunsKeepWorld(EMPTY, before);
      OnlyTheOwnerDecides(Run(EMPTY, before), ops[|before|], a);
      hide OwnerDecided, Dropped, Do, Linked, RunningOk, OutboxOk;
    }
  }

  // ----- what leaves -----

  /** The call analyses this proposal under a verdict that allows it, asks for no approval and
      so has it executed at once. */
  ghost predicate Permits(op: Op, p: Proposal) {
    && op.Analyze? && op.p == p
    && op.v.confidenceOk && op.v.artifactsAllowed && op.v.policyAllowed && !op.v.requiresApproval
  }

  /** Operation `i` is such a call, while the gateway is up. */
  ghost predicate PermittedAt(ops: seq<Op>, i: int, p: Proposal) {
    0 <= i < |ops| && Permits(ops[i], p) && Run(EMPTY, ops[..i]).up
  }

  ghost predicate PermittedBy(ops: seq<Op>, p: Proposal) {
    exists i :: PermittedAt(ops, i, p)
  }

  lemma PermittedStays(ops: seq<Op>, p: Proposal)
    requires ops != [] && (PermittedBy(ops[..|ops| - 1], p) || PermittedAt(ops, |ops| - 1, p))
    ensures PermittedBy(ops, p)
  {
    hide Do, Run;
    var before := ops[..|ops| - 1];
    if i :| PermittedAt(before, i, p) {
      assert before[..i] == ops[..i];
      assert PermittedAt(ops, i, p);
    }
  }

  /** A delivery without an approval is added by such an analysis alone. */
  lemma StepNeedsPermission(w: World, op: Op)
    ensures var w' := Do(w, op);
            || w'.outbox == w.outbox
            || (&& |w'.outbox| == |w.outbox| + 1 && w'.outbox[..|w.outbox|] == w.outbox
                && var d := w'.outbox[|w.outbox|];
                   d.approval == None ==> w.up && Permits(op, d.proposal) && d.proposal.action in {MarkRead, Move, Archive})
  {
    hide TablesAfter, Executes, ClaimStep, CompleteStep, FailStep, RecoverStep;
  }

  lemma {:induction false} UnapprovedWasPermitted(ops: seq<Op>, k: nat)
    requires k < |Run(EMPTY, ops).outbox| && Run(EMPTY, ops).outbox[k].approval == None
    ensures PermittedBy(ops, Run(EMPTY, ops).outbox[k].proposal)
    ensures Run(EMPTY, ops).outbox[k].proposal.action in {MarkRead, Move, Archive}
  {
    if ops != [] {
      var before, op := ops[..|ops| - 1], ops[|ops| - 1];
      var w, w' := Run(EMPTY, before), Run(EMPTY, ops);
      StepNeedsPermission(w, op);
      hide Do, PermittedBy;
      if k < |w.outbox| {
        assert w'.outbox[k] == w.outbox[k] by { assert w'.outbox[..|w.outbox|][k] == w.outbox[k]; }
        UnapprovedWasPermitted(before, k);
      } else {
        assert PermittedAt(ops, |before|, w'.outbox[k].proposal);
      }
      PermittedStays(ops, w'.outbox[k].proposal);
    }
  }

  /** The owner approved this proposal, as it was stored then, for this approval. */
  ghost predicate ApprovedAs(ops: seq<Op>, i: int, a: string, p: Proposal) {
    OwnerDecidedAt(ops, i, a, true) && Run(EMPTY, ops[..i]).t.approvals[a].proposal == p
  }

  lemma DeliveredWasApproved(ops: seq<Op>, k: nat, a: string)
    requires k < |Run(EMPTY, ops).outbox| && Run(EMPTY, ops).outbox[k].approval == Some(a)
    ensures exists i :: ApprovedAs(ops, i, a, Run(EMPTY, ops).outbox[k].proposal)
  {
    OutboxIsApprovedOrDirect(ops, k);
    RunsFollowTheOwner(ops, a);
    hide Run, Do;
    var i :| OwnerDecidedAt(ops, i, a, true);
    DeliveredIsWhatWasApproved(ops, i, k, "");
    assert ApprovedAs(ops, i, a, Run(EMPTY, ops).outbox[k].proposal);
  }

  /** In every run, nothing that needs an approval leaves the gateway without one: a delivery
      either shows the very proposal that the owner approved, or marks read, moves or archives
      after an analysis whose verdict asked for no approval. */
  lemma NothingLeavesWithoutConsent(ops: seq<Op>, k: nat)
    requires k < |Run(EMPTY, ops).outbox|
    ensures var d := Run(EMPTY, ops).outbox[k];
            match d.approval
            case Some(a) => exists i :: ApprovedAs(ops, i, a, d.proposal)
            case None => PermittedBy(ops, d.proposal) && d.proposal.action in {MarkRead, Move, Archive}
  {
    match Run(EMPTY, ops).outbox[k].approval {
      case Some(a) => DeliveredWasApproved(ops, k, a);
      case None => UnapprovedWasPermitted(ops, k);
    }
  }

  /** What the owner refused, or discarded before deciding, never leaves and is not running. */
  lemma RefusedNeverLeaves(ops: seq<Op>, a: string)
    requires OwnerDecided(ops, a, false) || Dropped(ops, a)
    ensures !WentOut(Run(EMPTY, ops).outbox, a) && a !in Run(EMPTY, ops).running && !Claimable(Run(EMPTY, ops).t, a)
  {
    RunsFollowTheOwner(ops, a);
    RunsKeepWorld(EMPTY, ops);
    hide Run, OwnerDecided, Dropped, Executes;
    var w := Run(EMPTY, ops);
    forall i | 0 <= i < |w.outbox|
      ensures w.outbox[i].approval != Some(a)
    {
      assert DeliveryOk(w.t, w.outbox[i]);
    }
  }

  /** In every run an approval can be executed exactly if the owner approved it, its action has
      an executor, and it is neither executing, nor uncertain, nor done. */
  lemma ClaimableExactly(ops: seq<Op>, a: string)
    ensures var t := Run(EMPTY, ops).t;
            Claimable(t, a) <==>
              && OwnerDecided(ops, a, true) && a in t.approvals
              && t.approvals[a].action in {MarkRead, Move, Archive, Delete, SendReply, Forward}
              && t.approvals[a].execution !in {Executing, Uncertain, Sent, Completed}
  {
    RunsFollowTheOwner(ops, a);
    RunsKeepWorld(EMPTY, ops);
    hide Run, OwnerDecided;
    assert a in Run(EMPTY, ops).t.approvals ==> ApprovalOk(Run(EMPTY, ops).t.approvals[a]);
  }

  /** An analysis whose verdict asks for an approval leaves its proposal waiting for the owner:
      pending, not executable, with nothing delivered; its draft, if it gets one, waits too. */
  lemma AskedMeansWaiting(ops: seq<Op>, a: string, d: string, p: Proposal, v: Verdict, sender: Option<string>, cutShort: bool)
    requires var w := Run(EMPTY, ops); w.up && a !in w.t.approvals && d !in w.t.drafts
    requires v.confidenceOk && v.artifactsAllowed && v.policyAllowed && v.requiresApproval
    ensures var w, w' := Run(EMPTY, ops), Run(EMPTY, ops + [Analyze(a, d, p, v, sender, cutShort)]);
            && w'.outbox == w.outbox && w'.running == w.running
            && w'.t.approvals == w.t.approvals[a := Approval(p.action, p, Pending, NotApplicable)]
            && !Claimable(w'.t, a)
            && (d in w'.t.drafts <==>
                  !cutShort && v.autoCreateDrafts && p.body.GetOr("") != "" && p.action in {CreateDraft, SendReply, Forward})
            && (d in w'.t.drafts ==> w'.t.drafts[d].approvalId == Some(a) && w'.t.drafts[d].status == ApprovalPending)
  {
    RunMore(EMPTY, ops, Analyze(a, d, p, v, sender, cutShort));
    hide Run, Executes;
  }
}
