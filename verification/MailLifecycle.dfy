/** Runs of the mail gateway: drafts, approvals, executions, crashes. What was approved is
    what is sent, and a draft is sent exactly when its approval was. */
module MailLifecycle {
  import opened Common
  import opened MailTables
  import opened MailServices

  /** An execution between its claim and its final transaction. */
  datatype Execution = Execution(proposal: Proposal, transmitted: bool)

  /** What left the gateway: the approval it was executed for, if any, and the sender of its
      source message at that moment. */
  datatype Delivery = Delivery(approval: Option<string>, proposal: Proposal, sender: string)

  datatype World = World(t: Tables, up: bool, running: map<string, Execution>, outbox: seq<Delivery>)

  /** One service call, or one part of an execution between two awaits. The `cut` of a call
      that makes several transactions says how many of them a crash lets through; `sender` is
      the sender of the source message, if that is stored at the time, and `stamped` the text
      with the mandatory signature. An analysis carries the verdict on its proposal; a direct
      execution after the cycle, which marks processed mail as read, is an analysis too. Other
      services create drafts without an approval. */
  datatype Op =
    | Analyze(approvalId: string, draftId: string, p: Proposal, v: Verdict, sender: Option<string>, cutShort: bool)
    | PlainDraft(draftId: string, p: Proposal)
    | Edit(draftId: string, subject: string, body: string, recipient: Option<string>, sender: Option<string>, stamped: string)
    | Submit(draftId: string, approvalId: string, sender: Option<string>, stamped: string, cut: nat)
    | Decide(id: string, approve: bool)
    | Discard(draftId: string)
    | Start(id: string)
    | Transmit(id: string, sender: Option<string>)
    | Conclude(id: string, ok: bool)
    | Crash
    | Restart
    | Reconcile(id: string, alreadySent: bool)

  /** A submission starts only for an unlinked draft. */
  predicate Unlinked(t: Tables, draftId: string) {
    draftId in t.drafts && t.drafts[draftId].approvalId == None
  }

  /** What DraftService.edit stores for this call. */
  function EditTables(
    t: Tables, d: string, subject: string, body: string, recipient: Option<string>, sender: Option<string>, stamped: string)
    : Tables
  {
    if d !in t.drafts then t
    else
      var p := EditedProposal(t.drafts[d].proposal, subject, body, recipient, sender, _ => stamped);
      if p.Success? then After(t, UpdateDraftStep(t, d, p.value)) else t
  }

  /** What DraftService.submit_for_approval stores for this call. */
  function SubmitCall(t: Tables, d: string, a: string, sender: Option<string>, stamped: string, cut: nat): Tables {
    if !Unlinked(t, d) then t
    else
      var p := SubmittedProposal(t.drafts[d].proposal, sender, _ => stamped);
      if p.Success? then SubmitTables(t, d, a, p.value, cut) else t
  }

  /** The calls that only touch the tables. */
  function TablesAfter(t: Tables, op: Op): Tables {
    match op
    case Analyze(a, d, p, v, _, cutShort) =>
      var planned := PlannedArtifacts(p, v);
      ProposeTables(t, a, d, p, ApprovalArtifact in planned, DraftArtifact in planned, cutShort)
    case PlainDraft(d, p) => After(t, CreateDraftStep(t, d, p, None))
    case Edit(d, subject, body, recipient, sender, stamped) => EditTables(t, d, subject, body, recipient, sender, stamped)
    case Submit(d, a, sender, stamped, cut) => SubmitCall(t, d, a, sender, stamped, cut)
    case Decide(a, approve) => After(t, DecideStep(t, a, approve))
    case Discard(d) => After(t, DiscardStep(t, d))
    case Reconcile(a, alreadySent) => After(t, ReconcileStep(t, a, alreadySent))
    case _ => t
  }

  function DoStart(w: World, id: string): World {
    if w.up && Claimable(w.t, id) then
      w.(t := ClaimStep(w.t, id).value, running := w.running[id := Execution(w.t.approvals[id].proposal, false)])
    else w
  }

  function DoTransmit(w: World, id: string, sender: Option<string>): World {
    if id in w.running && !w.running[id].transmitted && Executes(w.running[id].proposal, true, sender) then
      w.(running := w.running[id := w.running[id].(transmitted := true)],
         outbox := w.outbox + [Delivery(Some(id), w.running[id].proposal, sender.value)])
    else w
  }

  function DoDirect(w: World, p: Proposal, sender: Option<string>): World {
    if w.up && DirectAction(p.action) && Executes(p, false, sender) then
      w.(outbox := w.outbox + [Delivery(None, p, sender.value)])
    else w
  }

  /** Success is recorded only after the delivery returned. */
  function DoConclude(w: World, id: string, ok: bool): World {
    if id !in w.running then w
    else if ok && w.running[id].transmitted then
      w.(t := After(w.t, CompleteStep(w.t, id, Sends(w.running[id].proposal.action))), running := w.running - {id})
    else if !ok then w.(t := After(w.t, FailStep(w.t, id)), running := w.running - {id})
    else w
  }

  function DoRestart(w: World): World {
    if w.up then w else w.(up := true, t := RecoverStep(w.t))
  }

  /** The plan of this analysis is to execute its proposal at once. */
  predicate RunsDirectly(op: Op) {
    op.Analyze? && ExecutionArtifact in PlannedArtifacts(op.p, op.v)
  }

  function DoCall(w: World, op: Op): World {
    if w.up then w.(t := TablesAfter(w.t, op)) else w
  }

  function Do(w: World, op: Op): World {
    match op
    case Analyze(_, _, p, _, sender, _) => if RunsDirectly(op) then DoDirect(w, p, sender) else DoCall(w, op)
    case Start(id) => DoStart(w, id)
    case Transmit(id, sender) => DoTransmit(w, id, sender)
    case Conclude(id, ok) => DoConclude(w, id, ok)
    case Crash => w.(up := false, running := map[])
    case Restart => DoRestart(w)
    case _ => DoCall(w, op)
  }

  function Run(w: World, ops: seq<Op>): World {
    if ops == [] then w else Do(Run(w, ops[..|ops| - 1]), ops[|ops| - 1])
  }

  const EMPTY: World := World(Tables(map[], map[]), true, map[], [])

  // ----- the invariant that joins the tables -----

  ghost predicate ApprovalOk(a: Approval) {
    && a.action == a.proposal.action
    && (a.status != Approved ==> a.execution == NotApplicable)
    && (a.status == Approved ==> (a.execution != NotApplicable <==> Executable(a.action)))
    && (a.execution in {Sent, Uncertain} ==> Sends(a.action))
    && (a.execution == Completed ==> !Sends(a.action))
  }

  /** The columns of a draft show its stored proposal. */
  ghost predicate ColumnsOk(d: Draft) {
    && d.mailboxId == d.proposal.mailboxId && d.messageId == d.proposal.messageId
    && d.recipient == d.proposal.recipient && d.subject == d.proposal.subject
    && d.body == d.proposal.body.GetOr("") && d.sourceAction == d.proposal.action
  }

  /** The state of a draft against that of the approval it is linked to. */
  ghost predicate StatusOk(d: Draft, approvals: map<string, Approval>) {
    match d.approvalId
    case None => d.status == Open || d.status == Discarded
    case Some(a) =>
      && a in approvals
      && d.proposal == approvals[a].proposal
      && match d.status
         case Open => false
         case ApprovalPending => approvals[a].status in {Pending, Approved} && approvals[a].execution != Sent
         case Discarded => approvals[a].status == Rejected
         case Delivered => approvals[a].status == Approved && approvals[a].execution == Sent
  }

  ghost predicate DraftOk(d: Draft, approvals: map<string, Approval>) {
    ColumnsOk(d) && StatusOk(d, approvals)
  }

  ghost predicate Injective(drafts: map<string, Draft>) {
    forall d, e :: d in drafts && e in drafts && d != e && drafts[d].approvalId.Some? ==>
      drafts[d].approvalId != drafts[e].approvalId
  }

  ghost predicate Linked(t: Tables) {
    && (forall a :: a in t.approvals ==> ApprovalOk(t.approvals[a]))
    && (forall d :: d in t.drafts ==> DraftOk(t.drafts[d], t.approvals))
    && Injective(t.drafts)
  }

  /** No draft points to this approval. */
  ghost predicate Free(t: Tables, a: string) {
    forall d :: d in t.drafts ==> t.drafts[d].approvalId != Some(a)
  }

  lemma EnqueueKeepsLinked(t: Tables, a: string, p: Proposal)
    requires Linked(t)
    ensures Linked(After(t, EnqueueStep(t, a, p)))
    ensures EnqueueStep(t, a, p).Success? ==> Free(After(t, EnqueueStep(t, a, p)), a)
  {
  }

  lemma DraftChangeKeepsLinked(t: Tables, id: string, d: Draft)
    requires Linked(t) && DraftOk(d, t.approvals)
    requires d.approvalId.Some? ==> forall e :: e in t.drafts && e != id ==> t.drafts[e].approvalId != d.approvalId
    ensures Linked(t.(drafts := t.drafts[id := d]))
  {
  }

  lemma CreateKeepsLinked(t: Tables, d: string, p: Proposal, approvalId: Option<string>)
    requires Linked(t)
    requires approvalId.Some? ==>
      && Free(t, approvalId.value) && approvalId.value in t.approvals
      && t.approvals[approvalId.value].proposal == p && t.approvals[approvalId.value].status == Pending
    ensures Linked(After(t, CreateDraftStep(t, d, p, approvalId)))
  {
    if CreateDraftStep(t, d, p, approvalId).Success? {
      if approvalId.Some? {
        assert ApprovalOk(t.approvals[approvalId.value]);
      }
      DraftChangeKeepsLinked(t, d, After(t, CreateDraftStep(t, d, p, approvalId)).drafts[d]);
    }
  }

  lemma ProposeKeepsLinked(t: Tables, a: string, d: string, p: Proposal, approval: bool, draft: bool, cutShort: bool)
    requires Linked(t)
    ensures Linked(ProposeTables(t, a, d, p, approval, draft, cutShort))
  {
    EnqueueKeepsLinked(t, a, p);
    if !approval {
      CreateKeepsLinked(t, d, p, None);
    } else if EnqueueStep(t, a, p).Success? && !cutShort && draft {
      CreateKeepsLinked(EnqueueStep(t, a, p).value, d, p, Some(a));
    }
  }

  /** Changing one approval, and the drafts linked to it, keeps the join if every draft of
      the approval still fits it. */
  lemma ApprovalChangeKeepsLinked(t: Tables, a: string, row: Approval, drafts: map<string, Draft>)
    requires Linked(t) && ApprovalOk(row) && drafts.Keys == t.drafts.Keys
    requires forall d :: d in drafts ==>
      if t.drafts[d].approvalId == Some(a) then DraftOk(drafts[d], t.approvals[a := row]) else drafts[d] == t.drafts[d]
    requires forall d :: d in drafts ==> drafts[d].approvalId in {None, t.drafts[d].approvalId}
    ensures Linked(Tables(t.approvals[a := row], drafts))
  {
  }

  lemma EditKeepsLinked(t: Tables, d: string, p: Proposal)
    requires Linked(t)
    ensures Linked(After(t, UpdateDraftStep(t, d, p)))
  {
    if UpdateDraftStep(t, d, p).Success? {
      var draft := t.drafts[d];
      assert DraftOk(draft, t.approvals);
      if draft.approvalId == None {
        DraftChangeKeepsLinked(t, d, Edited(draft, p));
      } else {
        var a := draft.approvalId.value;
        assert ApprovalOk(t.approvals[a]);
        ApprovalChangeKeepsLinked(t, a, t.approvals[a].(proposal := p), t.drafts[d := Edited(draft, p)]);
      }
    }
  }

  lemma SubmitKeepsLinked(t: Tables, d: string, a: string, p: Proposal, cut: nat)
    requires Linked(t) && Unlinked(t, d)
    ensures Linked(SubmitTables(t, d, a, p, cut))
  {
    EditKeepsLinked(t, d, p);
    var updated := UpdateDraftStep(t, d, p);
    if updated.Success? {
      EnqueueKeepsLinked(updated.value, a, p);
      var queued := EnqueueStep(updated.value, a, p);
      if queued.Success? {
        var linked := LinkStep(queued.value, d, a, p.action);
        assert ApprovalOk(queued.value.approvals[a]) && DraftOk(queued.value.drafts[d], queued.value.approvals);
        DraftChangeKeepsLinked(queued.value, d, After(queued.value, linked).drafts[d]);
      }
    }
  }

  lemma DecideKeepsLinked(t: Tables, a: string, approve: bool)
    requires Linked(t)
    ensures Linked(After(t, DecideStep(t, a, approve)))
  {
    var t' := After(t, DecideStep(t, a, approve));
    if DecideStep(t, a, approve).Success? {
      assert ApprovalOk(t.approvals[a]);
      forall d | d in t.drafts && t.drafts[d].approvalId == Some(a)
        ensures DraftOk(t'.drafts[d], t'.approvals)
      {
        assert DraftOk(t.drafts[d], t.approvals);
      }
      ApprovalChangeKeepsLinked(t, a, t'.approvals[a], t'.drafts);
    }
  }

  lemma DiscardKeepsLinked(t: Tables, d: string)
    requires Linked(t)
    ensures Linked(After(t, DiscardStep(t, d)))
  {
    if DiscardStep(t, d).Success? && t.drafts[d].status != Discarded {
      var gone := t.drafts[d].(status := Discarded);
      assert DraftOk(t.drafts[d], t.approvals);
      if t.drafts[d].approvalId == None {
        DraftChangeKeepsLinked(t, d, gone);
      } else {
        var a := t.drafts[d].approvalId.value;
        assert ApprovalOk(t.approvals[a]);
        ApprovalChangeKeepsLinked(t, a, After(t, DiscardStep(t, d)).approvals[a], t.drafts[d := gone]);
        assert t.approvals[a].status == Pending;
      }
    }
  }

  /** Recording a send marks the linked draft in the same transaction. */
  lemma ExecutionKeepsLinked(t: Tables, a: string, execution: MailTables.Execution)
    requires Linked(t) && a in t.approvals && t.approvals[a].status == Approved && t.approvals[a].execution != Sent
    requires ApprovalOk(t.approvals[a].(execution := execution))
    ensures var row := t.approvals[a].(execution := execution);
            Linked(Tables(t.approvals[a := row], if execution == Sent then MarkDelivered(t.drafts, a) else t.drafts))
  {
    var row := t.approvals[a].(execution := execution);
    var drafts := if execution == Sent then MarkDelivered(t.drafts, a) else t.drafts;
    forall d | d in t.drafts && t.drafts[d].approvalId == Some(a)
      ensures DraftOk(drafts[d], t.approvals[a := row])
    {
      assert DraftOk(t.drafts[d], t.approvals);
    }
    ApprovalChangeKeepsLinked(t, a, row, drafts);
  }

  lemma ReconcileKeepsLinked(t: Tables, a: string, alreadySent: bool)
    requires Linked(t)
    ensures Linked(After(t, ReconcileStep(t, a, alreadySent)))
  {
    if ReconcileStep(t, a, alreadySent).Success? {
      assert ApprovalOk(t.approvals[a]);
      ExecutionKeepsLinked(t, a, if alreadySent then Sent else Ready);
    }
  }

  lemma RecoverKeepsLinked(t: Tables)
    requires Linked(t)
    ensures Linked(RecoverStep(t))
  {
    var t' := RecoverStep(t);
    forall a | a in t'.approvals
      ensures ApprovalOk(t'.approvals[a])
    {
      assert ApprovalOk(t.approvals[a]);
    }
    forall d | d in t'.drafts
      ensures DraftOk(t'.drafts[d], t'.approvals)
    {
      assert DraftOk(t.drafts[d], t.approvals);
    }
  }

  // ----- decided approvals are frozen -----

  /** No approval disappears or changes its action, and a decided one keeps its decision and
      its proposal. */
  ghost predicate Frozen(t: Tables, t': Tables) {
    forall a :: a in t.approvals ==>
      && a in t'.approvals
      && t'.approvals[a].action == t.approvals[a].action
      && (t.approvals[a].status != Pending ==>
            t'.approvals[a].status == t.approvals[a].status && t'.approvals[a].proposal == t.approvals[a].proposal)
  }

  lemma CallsFreeze(t: Tables, op: Op)
    ensures Frozen(t, TablesAfter(t, op))
  {
    match op {
      case Analyze(_, _, _, _, _, _) => hide PlannedArtifacts;
      case PlainDraft(_, _) =>
      case Edit(_, _, _, _, _, _) =>
      case Submit(d, a, sender, stamped, cut) =>
        var p := if d in t.drafts then SubmittedProposal(t.drafts[d].proposal, sender, _ => stamped) else Failure(NotFound);
        if p.Success? {
          SubmitFreezes(t, d, a, p.value, cut);
        }
      case Decide(_, _) =>
      case Discard(_) =>
      case Reconcile(_, _) =>
      case _ =>
    }
  }

  lemma SubmitFreezes(t: Tables, d: string, a: string, p: Proposal, cut: nat)
    ensures Frozen(t, SubmitTables(t, d, a, p, cut))
  {
    var updated := UpdateDraftStep(t, d, p);
    if updated.Success? {
      assert Frozen(t, updated.value);
    }
  }

  lemma CallsKeepLinked(t: Tables, op: Op)
    requires Linked(t)
    ensures Linked(TablesAfter(t, op))
  {
    hide Linked, PlannedArtifacts, CreateDraftStep, ProposeTables, SubmitTables;
    hide UpdateDraftStep, DecideStep, DiscardStep, ReconcileStep, EditedProposal, SubmittedProposal;
    match op {
      case Analyze(a, d, p, v, _, cutShort) =>
        var planned := PlannedArtifacts(p, v);
        ProposeKeepsLinked(t, a, d, p, ApprovalArtifact in planned, DraftArtifact in planned, cutShort);
      case PlainDraft(d, p) => CreateKeepsLinked(t, d, p, None);
      case Edit(d, subject, body, recipient, sender, stamped) =>
        if d in t.drafts {
          var p := EditedProposal(t.drafts[d].proposal, subject, body, recipient, sender, _ => stamped);
          if p.Success? {
            EditKeepsLinked(t, d, p.value);
          }
        }
      case Submit(d, a, sender, stamped, cut) =>
        if Unlinked(t, d) {
          var p := SubmittedProposal(t.drafts[d].proposal, sender, _ => stamped);
          if p.Success? {
            SubmitKeepsLinked(t, d, a, p.value, cut);
          }
        }
      case Decide(a, approve) => DecideKeepsLinked(t, a, approve);
      case Discard(d) => DiscardKeepsLinked(t, d);
      case Reconcile(a, alreadySent) => ReconcileKeepsLinked(t, a, alreadySent);
      case _ =>
    }
  }
}
