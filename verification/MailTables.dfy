/** Mail approvals and drafts: the two linked tables, edited by one transaction per method. */
module MailTables {
  import opened Common

  datatype Action =
    | Read | Summarize | Classify | CreateDraft | MarkRead | Move | Archive | Delete | SendReply | Forward

  /** The fields of a mail proposal that the lifecycle reads; `intended` is the metadata
      entry drafted_from_action. */
  datatype Proposal = Proposal(
    action: Action,
    mailboxId: string,
    messageId: Option<string>,
    recipient: Option<string>,
    subject: Option<string>,
    body: Option<string>,
    intended: Option<Action>)

  datatype ApprovalStatus = Pending | Approved | Rejected

  datatype Execution = NotApplicable | Ready | Executing | Sent | Completed | Failed | Uncertain

  datatype Approval = Approval(action: Action, proposal: Proposal, status: ApprovalStatus, execution: Execution)

  datatype DraftStatus = Open | ApprovalPending | Discarded | Delivered

  /** A draft row; Open is the status 'draft' and Delivered the status 'sent'. */
  datatype Draft = Draft(
    mailboxId: string,
    messageId: Option<string>,
    recipient: Option<string>,
    subject: Option<string>,
    body: string,
    sourceAction: Action,
    proposal: Proposal,
    approvalId: Option<string>,
    status: DraftStatus,
    revision: nat)

  datatype Tables = Tables(approvals: map<string, Approval>, drafts: map<string, Draft>)

  predicate Executable(action: Action) {
    action in {MarkRead, Move, Archive, Delete, SendReply, Forward}
  }

  predicate Sends(action: Action) {
    action == SendReply || action == Forward
  }

  /** The reversible mailbox actions, which may run without an approval. */
  predicate DirectAction(action: Action) {
    action in {MarkRead, Move, Archive}
  }

  // ----- the transactions, as functions: Failure leaves the tables alone -----

  function EnqueueStep(t: Tables, id: string, p: Proposal): Result<Tables> {
    if id in t.approvals then Failure(Conflict)
    else Success(t.(approvals := t.approvals[id := Approval(p.action, p, Pending, NotApplicable)]))
  }

  function CreateDraftStep(t: Tables, id: string, p: Proposal, approvalId: Option<string>): Result<Tables> {
    if p.body == None then Failure(Invalid)
    else if id in t.drafts then Failure(Conflict)
    else
      var status := if approvalId.Some? then ApprovalPending else Open;
      var draft := Draft(p.mailboxId, p.messageId, p.recipient, p.subject, p.body.value, p.action, p, approvalId, status, 1);
      Success(t.(drafts := t.drafts[id := draft]))
  }

  function Edited(draft: Draft, p: Proposal): Draft {
    draft.(recipient := p.recipient, subject := p.subject, body := p.body.GetOr(""), sourceAction := p.action,
           proposal := p, revision := draft.revision + 1)
  }

  /** An edit reaches the linked approval too, while that is pending. */
  function UpdateDraftStep(t: Tables, id: string, p: Proposal): Result<Tables> {
    if id !in t.drafts then Failure(NotFound)
    else
      var draft := t.drafts[id];
      if draft.status == Delivered then Failure(WrongState)
      else if p.mailboxId != draft.mailboxId || p.messageId != draft.messageId then Failure(Invalid)
      else if draft.approvalId == None then Success(t.(drafts := t.drafts[id := Edited(draft, p)]))
      else
        var a := draft.approvalId.value;
        if a !in t.approvals || t.approvals[a].status != Pending then Failure(WrongState)
        else if p.action != t.approvals[a].action then Failure(Invalid)
        else
          Success(Tables(t.approvals[a := t.approvals[a].(proposal := p)], t.drafts[id := Edited(draft, p)]))
  }

  function LinkStep(t: Tables, id: string, approvalId: string, source: Action): Result<Tables> {
    if id !in t.drafts then Failure(NotFound)
    else if t.drafts[id].status == Delivered || t.drafts[id].approvalId.Some? then Failure(WrongState)
    else
      var draft := t.drafts[id].(approvalId := Some(approvalId), status := ApprovalPending, sourceAction := source);
      Success(t.(drafts := t.drafts[id := draft]))
  }

  /** A rejection reopens the drafts that wait for it. */
  function Reopened(drafts: map<string, Draft>, approvalId: string): map<string, Draft> {
    map d | d in drafts ::
      if drafts[d].approvalId == Some(approvalId) && drafts[d].status == ApprovalPending
      then drafts[d].(status := Open, approvalId := None) else drafts[d]
  }

  function DecideStep(t: Tables, id: string, approve: bool): Result<Tables> {
    if id !in t.approvals then Failure(NotFound)
    else if t.approvals[id].status != Pending then Failure(WrongState)
    else
      var row := t.approvals[id].(status := if approve then Approved else Rejected,
                                  execution := if approve && Executable(t.approvals[id].action) then Ready else NotApplicable);
      Success(Tables(t.approvals[id := row], if approve then t.drafts else Reopened(t.drafts, id)))
  }

  predicate Claimable(t: Tables, id: string) {
    id in t.approvals && t.approvals[id].status == Approved && t.approvals[id].execution in {Ready, Failed}
  }

  function ClaimStep(t: Tables, id: string): Result<Tables> {
    if id !in t.approvals then Failure(NotFound)
    else if Claimable(t, id) then Success(t.(approvals := t.approvals[id := t.approvals[id].(execution := Executing)]))
    else if t.approvals[id].status == Approved && t.approvals[id].execution in {Sent, Completed} then Success(t)
    else Failure(WrongState)
  }

  function MarkDelivered(drafts: map<string, Draft>, approvalId: string): map<string, Draft> {
    map d | d in drafts ::
      if drafts[d].approvalId == Some(approvalId) then drafts[d].(status := Delivered) else drafts[d]
  }

  predicate InProgress(t: Tables, id: string) {
    id in t.approvals && t.approvals[id].execution == Executing
  }

  function CompleteStep(t: Tables, id: string, sent: bool): Result<Tables> {
    if !InProgress(t, id) then Failure(WrongState)
    else
      var row := t.approvals[id].(execution := if sent then Sent else Completed);
      Success(Tables(t.approvals[id := row], if sent then MarkDelivered(t.drafts, id) else t.drafts))
  }

  function FailStep(t: Tables, id: string): Result<Tables> {
    if InProgress(t, id) then Success(t.(approvals := t.approvals[id := t.approvals[id].(execution := Failed)]))
    else if id in t.approvals then Success(t)
    else Failure(NotFound)
  }

  /** discard_draft: a pending approval is rejected in the same transaction. */
  function DiscardStep(t: Tables, id: string): Result<Tables> {
    if id !in t.drafts then Failure(NotFound)
    else
      var draft := t.drafts[id];
      var gone := t.drafts[id := draft.(status := Discarded)];
      if draft.status == Delivered then Failure(WrongState)
      else if draft.status == Discarded then Success(t)
      else if draft.approvalId == None then Success(t.(drafts := gone))
      else
        var a := draft.approvalId.value;
        if a !in t.approvals then Failure(WrongState)
        else if t.approvals[a].status == Pending then
          Success(Tables(t.approvals[a := t.approvals[a].(status := Rejected, execution := NotApplicable)], gone))
        else if t.approvals[a].status == Rejected then Success(t.(drafts := gone))
        else Failure(WrongState)
  }

  /** Crash recovery: an interrupted send is uncertain, anything else may be retried. */
  function Recovered(row: Approval): Approval {
    if row.status == Approved && row.execution == Executing then
      row.(execution := if Sends(row.action) then Uncertain else Failed)
    else row
  }

  function RecoverStep(t: Tables): Tables {
    t.(approvals := map a | a in t.approvals :: Recovered(t.approvals[a]))
  }

  /** The owner settles an uncertain send. */
  function ReconcileStep(t: Tables, id: string, alreadySent: bool): Result<Tables> {
    if id !in t.approvals then Failure(NotFound)
    else
      var row := t.approvals[id];
      if row.status != Approved || row.execution != Uncertain || !Sends(row.action) then Failure(WrongState)
      else if alreadySent then
        Success(Tables(t.approvals[id := row.(execution := Sent)], MarkDelivered(t.drafts, id)))
      else Success(t.(approvals := t.approvals[id := row.(execution := Ready)]))
  }

  function After(t: Tables, r: Result<Tables>): Tables {
    if r.Success? then r.value else t
  }

  // ----- the store -----

  class MailStore {
    var approvals: map<string, Approval>
    var drafts: map<string, Draft>

    constructor ()
      ensures View() == Tables(map[], map[])
    {
      approvals, drafts := map[], map[];
    }

    function View(): Tables
      reads this
    {
      Tables(approvals, drafts)
    }

    method EnqueueApproval(id: string, p: Proposal) returns (r: Result<Tables>)
      modifies this
      ensures r == EnqueueStep(old(View()), id, p) && View() == After(old(View()), r)
    {
      if id in approvals {
        return Failure(Conflict);
      }
      approvals := approvals[id := Approval(p.action, p, Pending, NotApplicable)];
      r := Success(View());
    }

    method CreateDraft(id: string, p: Proposal, approvalId: Option<string>) returns (r: Result<Tables>)
      modifies this
      ensures r == CreateDraftStep(old(View()), id, p, approvalId) && View() == After(old(View()), r)
    {
      if p.body == None {
        return Failure(Invalid);
      }
      var status := if approvalId.Some? then ApprovalPending else Open;
      if id in drafts {
        return Failure(Conflict);
      }
      drafts := drafts[id := Draft(p.mailboxId, p.messageId, p.recipient, p.subject, p.body.value, p.action, p,
                                   approvalId, status, 1)];
      r := Success(View());
    }

    method UpdateDraft(id: string, p: Proposal) returns (r: Result<Tables>)
      modifies this
      ensures r == UpdateDraftStep(old(View()), id, p) && View() == After(old(View()), r)
      ensures r.Success? ==>
                && id in drafts && id in old(drafts)
                && drafts[id].subject == p.subject && drafts[id].recipient == p.recipient
                && drafts[id].body == (if p.body.Some? then p.body.value else "")
                && drafts[id].proposal == p && drafts[id].revision == old(drafts)[id].revision + 1
                && drafts[id].status == old(drafts)[id].status && drafts[id].approvalId == old(drafts)[id].approvalId
                && (forall a :: a in approvals && drafts[id].approvalId == Some(a) ==> approvals[a].proposal == p)
    {
      if id !in drafts {
        return Failure(NotFound);
      }
      var row := drafts[id];
      if row.status == Delivered {
        return Failure(WrongState);
      }
      if p.mailboxId != row.mailboxId || p.messageId != row.messageId {
        return Failure(Invalid);
      }
      if row.approvalId.Some? {
        var a := row.approvalId.value;
        if a !in approvals || approvals[a].status != Pending {
          return Failure(WrongState);
        }
        if p.action != approvals[a].action {
          return Failure(Invalid);
        }
        approvals := approvals[a := approvals[a].(proposal := p)];
      }
      drafts := drafts[id := row.(recipient := p.recipient, subject := p.subject, body := p.body.GetOr(""),
                                  sourceAction := p.action, proposal := p, revision := row.revision + 1)];
      r := Success(View());
    }

    method LinkDraftApproval(id: string, approvalId: string, source: Action) returns (r: Result<Tables>)
      modifies this
      ensures r == LinkStep(old(View()), id, approvalId, source) && View() == After(old(View()), r)
    {
      if id !in drafts {
        return Failure(NotFound);
      }
      if drafts[id].status == Delivered {
        return Failure(WrongState);
      }
      if drafts[id].approvalId.Some? {
        return Failure(WrongState);
      }
      drafts := drafts[id := drafts[id].(approvalId := Some(approvalId), status := ApprovalPending, sourceAction := source)];
      r := Success(View());
    }

    method DecideApproval(id: string, approve: bool) returns (r: Result<Tables>)
      modifies this
      ensures r == DecideStep(old(View()), id, approve) && View() == After(old(View()), r)
      ensures r.Success? <==> id in old(approvals) && old(approvals)[id].status == Pending
      ensures r.Success? ==>
                && approvals[id].status == (if approve then Approved else Rejected)
                && approvals[id].proposal == old(approvals)[id].proposal
                && (approvals[id].execution == Ready
                    <==> approve && approvals[id].action in {MarkRead, Move, Archive, Delete, SendReply, Forward})
      ensures r.Success? ==> forall d :: d in old(drafts) ==>
                && d in drafts
                && drafts[d] == if !approve && old(drafts)[d].approvalId == Some(id) && old(drafts)[d].status == ApprovalPending
                                then old(drafts)[d].(status := Open, approvalId := None) else old(drafts)[d]
    {
      if id !in approvals {
        return Failure(NotFound);
      }
      var row := approvals[id];
      if row.status != Pending {
        return Failure(WrongState);
      }
      var execution := if approve && Executable(row.action) then Ready else NotApplicable;
      approvals := approvals[id := row.(status := if approve then Approved else Rejected, execution := execution)];
      if !approve {
        drafts := Reopened(drafts, id);
      }
      r := Success(View());
    }

    method ClaimApprovalExecution(id: string) returns (r: Result<Tables>)
      modifies this
      ensures r == ClaimStep(old(View()), id) && View() == After(old(View()), r)
    {
      if id !in approvals {
        return Failure(NotFound);
      }
      var row := approvals[id];
      if row.status != Approved {
        return Failure(WrongState);
      }
      if row.execution == Sent || row.execution == Completed {
        return Success(View());
      }
      if row.execution == Executing {
        return Failure(WrongState);
      }
      if row.execution != Ready && row.execution != Failed {
        return Failure(WrongState);
      }
      approvals := approvals[id := row.(execution := Executing)];
      r := Success(View());
    }

    method CompleteApprovalExecution(id: string, sent: bool) returns (r: Result<Tables>)
      modifies this
      ensures r == CompleteStep(old(View()), id, sent) && View() == After(old(View()), r)
    {
      if id !in approvals || approvals[id].execution != Executing {
        return Failure(WrongState);
      }
      approvals := approvals[id := approvals[id].(execution := if sent then Sent else Completed)];
      if sent {
        drafts := MarkDelivered(drafts, id);
      }
      r := Success(View());
    }

    method FailApprovalExecution(id: string) returns (r: Result<Tables>)
      modifies this
      ensures r == FailStep(old(View()), id) && View() == After(old(View()), r)
    {
      if id in approvals && approvals[id].execution == Executing {
        approvals := approvals[id := approvals[id].(execution := Failed)];
      }
      if id !in approvals {
        return Failure(NotFound);
      }
      r := Success(View());
    }

    method DiscardDraft(id: string) returns (r: Result<Tables>)
      modifies this
      ensures r == DiscardStep(old(View()), id) && View() == After(old(View()), r)
    {
      if id !in drafts {
        return Failure(NotFound);
      }
      var row := drafts[id];
      if row.status == Delivered {
        return Failure(WrongState);
      }
      if row.status == Discarded {
        return Success(View());
      }
      if row.approvalId.Some? {
        var a := row.approvalId.value;
        if a !in approvals {
          return Failure(WrongState);
        }
        if approvals[a].status == Pending {
          approvals := approvals[a := approvals[a].(status := Rejected, execution := NotApplicable)];
        } else if approvals[a].status != Rejected {
          return Failure(WrongState);
        }
      }
      drafts := drafts[id := row.(status := Discarded)];
      r := Success(View());
    }

    method RecoverStaleExecutions()
      modifies this
      ensures View() == RecoverStep(old(View()))
      ensures forall a :: a in old(approvals) ==>
                && a in approvals
                && if old(approvals)[a].status == Approved && old(approvals)[a].execution == Executing
                   then approvals[a].execution == if approvals[a].action in {SendReply, Forward} then Uncertain else Failed
                   else approvals[a] == old(approvals)[a]
    {
      var rows := set a | a in approvals && approvals[a].status == Approved && approvals[a].execution == Executing;
      ghost var before := approvals;
      while rows != {}
        invariant approvals.Keys == before.Keys && rows <= before.Keys
        invariant forall a :: a in before ==> approvals[a] == if a in rows then before[a] else Recovered(before[a])
        invariant forall a :: a in rows ==> before[a].status == Approved && before[a].execution == Executing
        invariant drafts == old(drafts)
        decreases |rows|
      {
        var a :| a in rows;
        if Sends(approvals[a].action) {
          approvals := approvals[a := approvals[a].(execution := Uncertain)];
        } else {
          approvals := approvals[a := approvals[a].(execution := Failed)];
        }
        rows := rows - {a};
      }
    }

    method ReconcileUncertain(id: string, alreadySent: bool) returns (r: Result<Tables>)
      modifies this
      ensures r == ReconcileStep(old(View()), id, alreadySent) && View() == After(old(View()), r)
      ensures r.Success? <==>
                && id in old(approvals) && old(approvals)[id].status == Approved
                && old(approvals)[id].execution == Uncertain && old(approvals)[id].action in {SendReply, Forward}
      ensures r.Success? ==> approvals[id].execution == if alreadySent then Sent else Ready
    {
      if id !in approvals {
        return Failure(NotFound);
      }
      var row := approvals[id];
      if row.status != Approved || row.execution != Uncertain {
        return Failure(WrongState);
      }
      if !Sends(row.action) {
        return Failure(WrongState);
      }
      if alreadySent {
        approvals := approvals[id := row.(execution := Sent)];
        drafts := MarkDelivered(drafts, id);
      } else {
        approvals := approvals[id := row.(execution := Ready)];
      }
      r := Success(View());
    }
  }
}
