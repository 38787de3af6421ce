/** The services over the mail store: editing and submitting drafts, the artifacts of an
    analysis, and the execution of an approval. */
module MailServices {
  import opened Common
  import opened MailTables

  // ----- drafts -----

  predicate IsReply(p: Proposal) {
    p.intended.GetOr(p.action) == SendReply || p.action == SendReply
  }

  /** The stamped proposal of an edit. `sender` is the sender of the source message, if that
      is still stored; `stamp` adds the mandatory signature. */
  function EditedProposal(
    p: Proposal, subject: string, body: string, recipient: Option<string>, sender: Option<string>, stamp: string -> string)
    : Result<Proposal>
  {
    var source := if OrNone(p.messageId).Some? then sender else None;
    var requested := if OrNone(recipient).Some? then recipient else OrNone(p.recipient);
    if IsReply(p) && source == None then Failure(NotFound)
    else if IsReply(p) && requested.Some? && CaseFold(requested.value) != CaseFold(source.value) then Failure(Invalid)
    else if body == "" then Failure(Invalid)
    else
      Success(p.(subject := Some(subject), body := Some(stamp(body)), recipient := if IsReply(p) then source else requested))
  }

  /** The action a submitted draft asks approval for. */
  function SubmittedAction(p: Proposal, sender: string): Action {
    if p.intended == Some(Forward) then Forward
    else if p.intended == Some(SendReply) then SendReply
    else if sender != "" && CaseFold(p.recipient.GetOr("")) == CaseFold(sender) then SendReply
    else Forward
  }

  function SubmittedProposal(p: Proposal, sender: Option<string>, stamp: string -> string): Result<Proposal> {
    if OrNone(p.messageId) == None || sender == None then Failure(NotFound)
    else
      var action := SubmittedAction(p, sender.value);
      if action == Forward && OrNone(p.recipient) == None then Failure(Invalid)
      else
        Success(p.(action := action,
                   recipient := if action == SendReply then sender else p.recipient,
                   body := Some(stamp(p.body.GetOr("")))))
  }

  /** Exactly when a draft can be submitted, and for what: an intended forward stays a forward
      and an intended reply a reply; any other draft is a reply if it is addressed to the sender
      of its source message and a forward otherwise. A reply goes to that sender and to nobody
      else. */
  lemma SubmittedRepliesGoToSender(p: Proposal, sender: Option<string>, stamp: string -> string)
    ensures var r := SubmittedProposal(p, sender, stamp);
            var toSender := sender.Some? && sender.value != "" && CaseFold(p.recipient.GetOr("")) == CaseFold(sender.value);
            var reply := p.intended == Some(SendReply) || (p.intended != Some(Forward) && toSender);
            && (r.Success? <==>
                  && p.messageId.Some? && p.messageId.value != "" && sender.Some?
                  && (reply || (p.recipient.Some? && p.recipient.value != "")))
            && (r.Success? ==>
                  && r.value.action == (if reply then SendReply else Forward)
                  && r.value.recipient == (if reply then sender else p.recipient)
                  && r.value.mailboxId == p.mailboxId && r.value.messageId == p.messageId
                  && r.value.subject == p.subject && r.value.body == Some(stamp(p.body.GetOr(""))))
  {
  }

  /** Exactly when a draft can be edited, and what is stored. Editing a reply cannot redirect
      it, and editing never changes action or scope. */
  lemma EditsKeepScope(
    p: Proposal, subject: string, body: string, recipient: Option<string>, sender: Option<string>, stamp: string -> string)
    ensures var r := EditedProposal(p, subject, body, recipient, sender, stamp);
            var reply := p.action == SendReply || p.intended == Some(SendReply);
            var wanted := if recipient.GetOr("") != "" then recipient.value else p.recipient.GetOr("");
            && (r.Success? <==>
                  && body != ""
                  && (reply ==> p.messageId.GetOr("") != "" && sender.Some?
                                && (wanted == "" || CaseFold(wanted) == CaseFold(sender.value))))
            && (r.Success? ==>
                  && r.value.action == p.action && r.value.intended == p.intended
                  && r.value.mailboxId == p.mailboxId && r.value.messageId == p.messageId
                  && r.value.subject == Some(subject) && r.value.body == Some(stamp(body))
                  && r.value.recipient == if reply then sender else if wanted == "" then None else Some(wanted))
  {
  }

  /** The three transactions of a submission; `cut` of them take place before a crash. */
  function SubmitTables(t: Tables, draftId: string, approvalId: string, p: Proposal, cut: nat): Tables {
    if cut == 0 then t
    else
      var updated := UpdateDraftStep(t, draftId, p);
      if updated.Failure? then t
      else
        var queued := EnqueueStep(updated.value, approvalId, p);
        if cut == 1 || queued.Failure? then updated.value
        else if cut == 2 then queued.value
        else After(queued.value, LinkStep(queued.value, draftId, approvalId, p.action))
  }

  class DraftService {
    const store: MailStore

    constructor (store: MailStore)
      ensures this.store == store
    {
      this.store := store;
    }

    method Edit(draftId: string, subject: string, body: string, recipient: Option<string>, sender: Option<string>,
                stamp: string -> string)
      returns (r: Result<Tables>)
      modifies store
      ensures var t := old(store.View());
              if draftId !in t.drafts then r == Failure(NotFound) && store.View() == t
              else
                var edited := EditedProposal(t.drafts[draftId].proposal, subject, body, recipient, sender, stamp);
                if edited.Failure? then r == Failure(edited.error) && store.View() == t
                else r == UpdateDraftStep(t, draftId, edited.value) && store.View() == After(t, r)
    {
      if draftId !in store.drafts {
        return Failure(NotFound);
      }
      var p := store.drafts[draftId].proposal;
      var source := None;
      if OrNone(p.messageId).Some? {
        source := sender;
      }
      var requested := if OrNone(recipient).Some? then recipient else OrNone(p.recipient);
      if IsReply(p) {
        if source == None {
          return Failure(NotFound);
        }
        if requested.Some? && CaseFold(requested.value) != CaseFold(source.value) {
          return Failure(Invalid);
        }
        requested := source;
      }
      if body == "" {
        return Failure(Invalid);
      }
      r := store.UpdateDraft(draftId, p.(subject := Some(subject), body := Some(stamp(body)), recipient := requested));
    }

    /** Submits an unlinked draft: update, enqueue, link. */
    method SubmitForApproval(draftId: string, approvalId: string, sender: Option<string>, stamp: string -> string,
                             policyAllows: bool)
      returns (r: Result<Tables>)
      modifies store
      ensures var t := old(store.View());
              if draftId !in t.drafts then r == Failure(NotFound) && store.View() == t
              else if t.drafts[draftId].approvalId.Some? then
                && store.View() == t
                && (r.Success? <==> t.drafts[draftId].approvalId.value in t.approvals
                                    && t.approvals[t.drafts[draftId].approvalId.value].status == Pending)
              else
                var p := SubmittedProposal(t.drafts[draftId].proposal, sender, stamp);
                if p.Failure? || !policyAllows then r.Failure? && store.View() == t
                else
                  && store.View() == SubmitTables(t, draftId, approvalId, p.value, 3)
                  && (r.Success? ==>
                        && draftId in store.drafts && approvalId in store.approvals
                        && store.drafts[draftId].approvalId == Some(approvalId)
                        && store.drafts[draftId].status == ApprovalPending
                        && store.drafts[draftId].proposal == p.value
                        && store.approvals[approvalId] == Approval(p.value.action, p.value, Pending, NotApplicable))
    {
      if draftId !in store.drafts {
        return Failure(NotFound);
      }
      var draft := store.drafts[draftId];
      if draft.approvalId.Some? {
        if draft.approvalId.value !in store.approvals {
          return Failure(NotFound);
        }
        if store.approvals[draft.approvalId.value].status == Pending {
          return Success(store.View());
        }
        return Failure(WrongState);
      }
      var submitted := SubmittedProposal(draft.proposal, sender, stamp);
      if submitted.Failure? {
        return Failure(submitted.error);
      }
      if !policyAllows {
        return Failure(Invalid);
      }
      var p := submitted.value;
      r := store.UpdateDraft(draftId, p);
      if r.Failure? {
        return;
      }
      r := store.EnqueueApproval(approvalId, p);
      if r.Failure? {
        return;
      }
      r := store.LinkDraftApproval(draftId, approvalId, p.action);
    }
  }

  // ----- execution -----

  /** The guards of _execute: the action has an executor, its source message is stored (with
      this sender), and a mail goes out only under the signature flag, with a recipient and a
      text; a reply goes to the sender of its source. */
  predicate Executes(p: Proposal, signed: bool, sender: Option<string>) {
    && Executable(p.action) && OrNone(p.messageId).Some? && sender.Some?
    && (Sends(p.action) ==>
          && signed && OrNone(p.recipient).Some? && OrNone(p.body).Some?
          && (p.action == SendReply ==> CaseFold(p.recipient.value) == CaseFold(sender.value)))
  }

  /** A mail never goes out past the execution of an approval. */
  lemma OnlyApprovalsSend(p: Proposal, sender: Option<string>)
    ensures Executes(p, false, sender) ==> p.action in {MarkRead, Move, Archive, Delete}
  {
  }

  /** `performed` says whether the connector carried the action out. */
  method ExecuteApproval(store: MailStore, id: string, sender: Option<string>, performed: bool) returns (r: Result<Tables>)
    modifies store
    ensures var t := old(store.View());
            if !Claimable(t, id) then r == ClaimStep(t, id) && store.View() == t
            else
              var p := t.approvals[id].proposal;
              var claimed := ClaimStep(t, id).value;
              && (r.Success? <==> Executes(p, true, sender) && performed)
              && store.View() == (if r.Success? then CompleteStep(claimed, id, Sends(p.action)).value
                                  else FailStep(claimed, id).value)
              && (r.Success? <==>
                    && performed && p.action in {MarkRead, Move, Archive, Delete, SendReply, Forward}
                    && p.messageId.GetOr("") != "" && sender.Some?
                    && (p.action in {SendReply, Forward} ==> p.recipient.GetOr("") != "" && p.body.GetOr("") != "")
                    && (p.action == SendReply ==> CaseFold(p.recipient.value) == CaseFold(sender.value)))
              && id in store.approvals
              && store.approvals[id].execution ==
                   if !r.Success? then Failed else if p.action in {SendReply, Forward} then Sent else Completed
  {
    var claimed := store.ClaimApprovalExecution(id);
    if claimed.Failure? || store.approvals[id].execution in {Sent, Completed} {
      return claimed;
    }
    var p := store.approvals[id].proposal;
    if Executes(p, true, sender) && performed {
      r := store.CompleteApprovalExecution(id, Sends(p.action));
    } else {
      var _ := store.FailApprovalExecution(id);
      r := Failure(Remote);
    }
  }

  /** An execution that the policy allows without approval. */
  method ExecuteDirect(p: Proposal, sender: Option<string>, performed: bool) returns (r: Result<Proposal>)
    ensures r.Success? <==> DirectAction(p.action) && Executes(p, false, sender) && performed
    ensures r.Success? ==> r.value == p && p.action in {MarkRead, Move, Archive}
  {
    if !DirectAction(p.action) || !Executes(p, false, sender) || !performed {
      return Failure(Remote);
    }
    r := Success(p);
  }

  // ----- artifacts of an analysis -----

  datatype Artifact = ApprovalArtifact | ExecutionArtifact | DraftArtifact

  /** What the behaviour settings, rules and policy decided about one analysis. */
  datatype Verdict = Verdict(
    confidenceOk: bool,
    artifactsAllowed: bool,
    policyAllowed: bool,
    requiresApproval: bool,
    autoCreateDrafts: bool)

  predicate Outbound(action: Action) {
    action in {CreateDraft, SendReply, Forward}
  }

  /** _planned_artifacts, which shadow mode reports. */
  function PlannedArtifacts(p: Proposal, v: Verdict): seq<Artifact> {
    if !v.confidenceOk || !v.artifactsAllowed || !v.policyAllowed then []
    else
      (if v.requiresApproval then [ApprovalArtifact]
       else if DirectAction(p.action) then [ExecutionArtifact]
       else [])
      + (if v.autoCreateDrafts && OrNone(p.body).Some? && Outbound(p.action) then [DraftArtifact] else [])
  }

  datatype Outcome = WouldIgnore | BelowConfidence | Blocked | WouldApproval | WouldExecute | WouldDraft | NoAction

  /** _simulated_outcome, the label of a shadow run. */
  function SimulatedOutcome(ignored: bool, v: Verdict, planned: seq<Artifact>): Outcome {
    if ignored then WouldIgnore
    else if !v.confidenceOk then BelowConfidence
    else if !v.policyAllowed then Blocked
    else if ApprovalArtifact in planned then WouldApproval
    else if ExecutionArtifact in planned then WouldExecute
    else if DraftArtifact in planned then WouldDraft
    else NoAction
  }

  /** The two transactions of the artifact block; a crash can cut the second one. */
  function ProposeTables(
    t: Tables, approvalId: string, draftId: string, p: Proposal, approval: bool, draft: bool, cut: bool): Tables
  {
    if !approval then (if draft then After(t, CreateDraftStep(t, draftId, p, None)) else t)
    else
      var queued := EnqueueStep(t, approvalId, p);
      if queued.Failure? || cut || !draft then After(t, queued)
      else After(queued.value, CreateDraftStep(queued.value, draftId, p, Some(approvalId)))
  }

  /** The live artifact block of analyze_message: what it creates is exactly the plan, unless
      the planned direct execution raises, and then it creates nothing. What needs an approval
      waits for one, with the analysed proposal, and is not executed. */
  method CreateArtifacts(
    store: MailStore, approvalId: string, draftId: string, p: Proposal, v: Verdict, sender: Option<string>, performed: bool)
    returns (r: Result<seq<Artifact>>)
    requires approvalId !in store.approvals && draftId !in store.drafts
    modifies store
    ensures r.Failure? <==> ExecutionArtifact in PlannedArtifacts(p, v) && !(Executes(p, false, sender) && performed)
    ensures r.Failure? ==> store.View() == old(store.View())
    ensures r.Success? ==>
              && r.value == PlannedArtifacts(p, v)
              && store.View() == ProposeTables(old(store.View()), approvalId, draftId, p,
                   ApprovalArtifact in r.value, DraftArtifact in r.value, false)
    ensures if v.confidenceOk && v.artifactsAllowed && v.policyAllowed && v.requiresApproval then
              && r.Success? && approvalId in store.approvals
              && store.approvals == old(store.approvals)[approvalId := Approval(p.action, p, Pending, NotApplicable)]
            else store.approvals == old(store.approvals)
    ensures r.Success? ==>
              var acts := v.confidenceOk && v.artifactsAllowed && v.policyAllowed;
              && (ApprovalArtifact in r.value <==> acts && v.requiresApproval)
              && (ExecutionArtifact in r.value <==> acts && !v.requiresApproval && p.action in {MarkRead, Move, Archive})
              && (DraftArtifact in r.value <==>
                    acts && v.autoCreateDrafts && p.body.GetOr("") != "" && p.action in {CreateDraft, SendReply, Forward})
              && (draftId in store.drafts <==> DraftArtifact in r.value)
              && (draftId in store.drafts ==>
                    && store.drafts[draftId].proposal == p && store.drafts[draftId].body == p.body.value
                    && store.drafts[draftId].approvalId == (if v.requiresApproval then Some(approvalId) else None)
                    && store.drafts[draftId].status == if v.requiresApproval then ApprovalPending else Open)
  {
    var created := [];
    if v.artifactsAllowed && v.confidenceOk && v.policyAllowed {
      var approval := None;
      if v.requiresApproval {
        var _ := store.EnqueueApproval(approvalId, p);
        approval := Some(approvalId);
        created := created + [ApprovalArtifact];
      } else if DirectAction(p.action) {
        var executed := ExecuteDirect(p, sender, performed);
        if executed.Failure? {
          assert PlannedArtifacts(p, v)[0] == ExecutionArtifact;
          return Failure(executed.error);
        }
        created := created + [ExecutionArtifact];
      }
      if v.autoCreateDrafts && OrNone(p.body).Some? && Outbound(p.action) {
        var _ := store.CreateDraft(draftId, p, approval);
        created := created + [DraftArtifact];
      }
    }
    r := Success(created);
  }

  /** The label that shadow mode shows names an artifact exactly when live mode creates one,
      and never two that exclude each other; otherwise it names what stopped the analysis. */
  lemma ShadowPredictsLive(p: Proposal, v: Verdict, ignored: bool)
    ensures var planned := PlannedArtifacts(p, v);
            var outcome := SimulatedOutcome(ignored, v, planned);
            && (outcome in {WouldApproval, WouldExecute, WouldDraft} <==> !ignored && planned != [])
            && !(ApprovalArtifact in planned && ExecutionArtifact in planned)
            && (outcome == WouldApproval <==> !ignored && ApprovalArtifact in planned)
            && (outcome == WouldExecute <==> !ignored && ExecutionArtifact in planned && ApprovalArtifact !in planned)
            && (outcome == WouldDraft <==> !ignored && planned == [DraftArtifact])
            && (outcome == WouldIgnore <==> ignored)
            && (outcome == BelowConfidence <==> !ignored && !v.confidenceOk)
            && (outcome == Blocked <==> !ignored && v.confidenceOk && !v.policyAllowed)
  {
  }
}
