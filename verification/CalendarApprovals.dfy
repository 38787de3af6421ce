/** The calendar approval queue: pending, decided, claimed, completed or failed rows, and
    what every run of its operations keeps. Each SQL transaction is one atomic step. */
module CalendarApprovals {
  import opened Common
  import opened CalendarEvents

  datatype Action = Create | Update | Delete

  datatype ProposalFields = ProposalFields(
    action: Action,
    calendar: string,
    eventId: Option<string>,
    event: Option<EventDraft>,
    expectedEtag: Option<nat>,
    allowConflict: bool)

  /** The shape check of the proposal model. */
  predicate WellShaped(p: ProposalFields) {
    && (p.event.Some? ==> ValidDraft(p.event.value))
    && (p.action == Create ==> p.event.Some?)
    && (p.action == Update ==> OrNone(p.eventId).Some? && p.event.Some?)
    && (p.action == Delete ==> OrNone(p.eventId).Some?)
  }

  type Proposal = p: ProposalFields | WellShaped(p)
    witness ProposalFields(Delete, "primary", Some("e"), None, None, false)

  datatype Decision = Pending | Approved | Rejected

  datatype Execution = NotApplicable | Ready | Executing | Completed | Failed

  datatype ExecutionResult = ExecutionResult(eventId: string, reconciled: bool)

  datatype Row = Row(
    proposal: Proposal,
    decision: Decision,
    execution: Execution,
    result: Option<ExecutionResult>,
    error: Option<Error>)

  type Table = map<string, Row>

  datatype StoreOp =
    | Enqueue(id: string, proposal: Proposal)
    | Decide(id: string, approve: bool)
    | Claim(id: string)
    | Complete(id: string, result: ExecutionResult)
    | Fail(id: string, error: Error)
    | Recover

  /** Inserting a row whose primary key exists raises and changes nothing. */
  function EnqueueStep(t: Table, id: string, proposal: Proposal): (Table, Result<Row>) {
    if id in t then (t, Failure(Conflict))
    else
      var row := Row(proposal, Pending, NotApplicable, None, None);
      (t[id := row], Success(row))
  }

  function DecideStep(t: Table, id: string, approve: bool): (Table, Result<Row>) {
    if id !in t then (t, Failure(NotFound))
    else if t[id].decision != Pending then (t, Failure(WrongState))
    else
      var row := if approve then t[id].(decision := Approved, execution := Ready)
                 else t[id].(decision := Rejected, execution := NotApplicable);
      (t[id := row], Success(row))
  }

  predicate Claimable(t: Table, id: string) {
    id in t && t[id].decision == Approved && t[id].execution in {Ready, Failed}
  }

  function ClaimStep(t: Table, id: string): (Table, Result<Row>) {
    if id !in t then (t, Failure(NotFound))
    else if Claimable(t, id) then
      var row := t[id].(execution := Executing, error := None);
      (t[id := row], Success(row))
    else if t[id].decision == Approved && t[id].execution == Completed then (t, Success(t[id]))
    else (t, Failure(WrongState))
  }

  predicate InProgress(t: Table, id: string) {
    id in t && t[id].execution == Executing
  }

  function CompleteStep(t: Table, id: string, result: ExecutionResult): (Table, Result<Row>) {
    if InProgress(t, id) then
      var row := t[id].(execution := Completed, result := Some(result), error := None);
      (t[id := row], Success(row))
    else (t, Failure(WrongState))
  }

  function FailStep(t: Table, id: string, error: Error): (Table, Result<Row>) {
    if InProgress(t, id) then
      var row := t[id].(execution := Failed, error := Some(error));
      (t[id := row], Success(row))
    else if id in t then (t, Success(t[id]))
    else (t, Failure(NotFound))
  }

  /** Every orphaned execution becomes a retryable failure. */
  function RecoverStep(t: Table): Table {
    map id | id in t :: if t[id].execution == Executing then t[id].(execution := Failed, error := Some(Remote)) else t[id]
  }

  function Apply(t: Table, op: StoreOp): Table {
    match op
    case Enqueue(id, proposal) => EnqueueStep(t, id, proposal).0
    case Decide(id, approve) => DecideStep(t, id, approve).0
    case Claim(id) => ClaimStep(t, id).0
    case Complete(id, result) => CompleteStep(t, id, result).0
    case Fail(id, error) => FailStep(t, id, error).0
    case Recover => RecoverStep(t)
  }

  function Replay(t: Table, ops: seq<StoreOp>): Table {
    if ops == [] then t else Apply(Replay(t, ops[..|ops| - 1]), ops[|ops| - 1])
  }

  /** The SQLite store: one table, updated in place by one transaction per method. */
  class CalendarApprovalStore {
    var rows: Table

    constructor ()
      ensures rows == map[]
    {
      rows := map[];
    }

    method Enqueue(id: string, proposal: Proposal) returns (r: Result<Row>)
      modifies this
      ensures (rows, r) == EnqueueStep(old(rows), id, proposal)
    {
      if id in rows {
        return Failure(Conflict);
      }
      rows := rows[id := Row(proposal, Pending, NotApplicable, None, None)];
      r := Success(rows[id]);
    }

    method Decide(id: string, approve: bool) returns (r: Result<Row>)
      modifies this
      ensures (rows, r) == DecideStep(old(rows), id, approve)
      ensures r.Success? <==> id in old(rows) && old(rows)[id].decision == Pending
      ensures r.Success? ==> rows[id].decision == if approve then Approved else Rejected
      ensures r.Success? ==> rows[id].execution == if approve then Ready else NotApplicable
    {
      if id !in rows {
        return Failure(NotFound);
      }
      if rows[id].decision != Pending {
        return Failure(WrongState);
      }
      var execution := if approve then Ready else NotApplicable;
      rows := rows[id := rows[id].(decision := if approve then Approved else Rejected, execution := execution)];
      r := Success(rows[id]);
    }

    method Claim(id: string) returns (r: Result<Row>)
      modifies this
      ensures (rows, r) == ClaimStep(old(rows), id)
      ensures r.Success? <==>
                id in old(rows) && old(rows)[id].decision == Approved && old(rows)[id].execution in {Ready, Failed, Completed}
      ensures r.Success? && old(rows)[id].execution == Completed ==> rows == old(rows) && r.value == rows[id]
    {
      if id !in rows {
        return Failure(NotFound);
      }
      var row := rows[id];
      if row.decision != Approved {
        return Failure(WrongState);
      }
      if row.execution == Completed {
        return Success(row);
      }
      if row.execution == Executing {
        return Failure(WrongState);
      }
      if row.execution != Ready && row.execution != Failed {
        return Failure(WrongState);
      }
      rows := rows[id := row.(execution := Executing, error := None)];
      r := Success(rows[id]);
    }

    method Complete(id: string, result: ExecutionResult) returns (r: Result<Row>)
      modifies this
      ensures (rows, r) == CompleteStep(old(rows), id, result)
    {
      if id !in rows || rows[id].execution != Executing {
        return Failure(WrongState);
      }
      rows := rows[id := rows[id].(execution := Completed, result := Some(result), error := None)];
      r := Success(rows[id]);
    }

    method Fail(id: string, error: Error) returns (r: Result<Row>)
      modifies this
      ensures (rows, r) == FailStep(old(rows), id, error)
    {
      if id in rows && rows[id].execution == Executing {
        rows := rows[id := rows[id].(execution := Failed, error := Some(error))];
      }
      if id !in rows {
        return Failure(NotFound);
      }
      r := Success(rows[id]);
    }

    method RecoverStaleExecutions() returns (count: nat)
      modifies this
      ensures rows == RecoverStep(old(rows))
      ensures count == |set id | id in old(rows) && old(rows)[id].execution == Executing|
    {
      var stale := set id | id in rows && rows[id].execution == Executing;
      count := |stale|;
      rows := map id | id in rows :: if id in stale then rows[id].(execution := Failed, error := Some(Remote)) else rows[id];
    }
  }

  /** What holds of every stored row. */
  predicate RowConsistent(row: Row) {
    && (row.decision == Approved <==> row.execution != NotApplicable)
    && (row.result.Some? <==> row.execution == Completed)
    && (row.error.Some? <==> row.execution == Failed)
  }

  predicate TableConsistent(t: Table) {
    forall id :: id in t ==> RowConsistent(t[id])
  }

  lemma StepKeepsRowsConsistent(t: Table, op: StoreOp)
    requires TableConsistent(t)
    ensures TableConsistent(Apply(t, op))
  {
  }

  lemma {:induction false} RunsKeepRowsConsistent(t: Table, ops: seq<StoreOp>)
    requires TableConsistent(t)
    ensures TableConsistent(Replay(t, ops))
  {
    if ops != [] {
      RunsKeepRowsConsistent(t, ops[..|ops| - 1]);
      StepKeepsRowsConsistent(Replay(t, ops[..|ops| - 1]), ops[|ops| - 1]);
    }
  }

  /** In every run a stored proposal never changes, a decision is never revised and a
      completed row never changes again. */
  lemma {:induction false} RunsFreezeProposals(t: Table, ops: seq<StoreOp>, id: string)
    requires TableConsistent(t) && id in t
    ensures id in Replay(t, ops)
    ensures Replay(t, ops)[id].proposal == t[id].proposal
    ensures t[id].decision != Pending ==> Replay(t, ops)[id].decision == t[id].decision
    ensures t[id].execution == Completed ==> Replay(t, ops)[id] == t[id]
  {
    if ops != [] {
      RunsKeepRowsConsistent(t, ops[..|ops| - 1]);
      RunsFreezeProposals(t, ops[..|ops| - 1], id);
    }
  }

  /** 1 while a row is executing or completed. */
  function Held(t: Table, id: string): nat {
    if id in t && t[id].execution in {Executing, Completed} then 1 else 0
  }

  predicate Granted(t: Table, op: StoreOp, id: string) {
    op == Claim(id) && Claimable(t, id)
  }

  predicate Released(t: Table, op: StoreOp, id: string) {
    InProgress(t, id) && ((op.Fail? && op.id == id) || op == Recover)
  }

  /** Executions of `id` that a run starts. */
  function Claims(t: Table, ops: seq<StoreOp>, id: string): nat {
    if ops == [] then 0
    else
      var before := ops[..|ops| - 1];
      Claims(t, before, id) + if Granted(Replay(t, before), ops[|ops| - 1], id) then 1 else 0
  }

  /** Failures of `id` that a run records, crash recovery included. */
  function Failures(t: Table, ops: seq<StoreOp>, id: string): nat {
    if ops == [] then 0
    else
      var before := ops[..|ops| - 1];
      Failures(t, before, id) + if Released(Replay(t, before), ops[|ops| - 1], id) then 1 else 0
  }

  lemma StepBalances(t: Table, op: StoreOp, id: string)
    requires TableConsistent(t)
    ensures Held(Apply(t, op), id) + (if Released(t, op, id) then 1 else 0)
         == Held(t, id) + (if Granted(t, op, id) then 1 else 0)
  {
  }

  /** Every execution that a run starts is one it recorded as failed or one still held. */
  lemma {:induction false} ClaimsBalanceFailures(t: Table, ops: seq<StoreOp>, id: string)
    requires TableConsistent(t)
    ensures Claims(t, ops, id) + Held(t, id) == Failures(t, ops, id) + Held(Replay(t, ops), id)
  {
    if ops != [] {
      var before := ops[..|ops| - 1];
      RunsKeepRowsConsistent(t, before);
      ClaimsBalanceFailures(t, before, id);
      StepBalances(Replay(t, before), ops[|ops| - 1], id);
    }
  }

  /** Attempts never exceed recorded failures plus one, counted from the empty queue. */
  lemma AttemptsAtMostFailuresPlusOne(ops: seq<StoreOp>, id: string)
    ensures Claims(map[], ops, id) <= Failures(map[], ops, id) + 1
  {
    ClaimsBalanceFailures(map[], ops, id);
  }

  lemma ReplayNext(t: Table, ops: seq<StoreOp>, m: nat)
    requires m < |ops|
    ensures Replay(t, ops[..m + 1]) == Apply(Replay(t, ops[..m]), ops[m])
  {
    assert ops[..m + 1][..m] == ops[..m];
  }

  predicate ReleasedAt(t: Table, ops: seq<StoreOp>, m: int, id: string) {
    0 <= m < |ops| && Released(Replay(t, ops[..m]), ops[m], id)
  }

  lemma {:induction false} HeldUntilReleased(t: Table, ops: seq<StoreOp>, i: nat, j: nat, id: string)
    requires TableConsistent(t) && i <= j <= |ops|
    requires Held(Replay(t, ops[..i]), id) == 1
    requires forall m :: i <= m < j ==> !ReleasedAt(t, ops, m, id)
    ensures Held(Replay(t, ops[..j]), id) == 1
  {
    hide Apply, Released, Granted, RowConsistent;
    if i < j {
      HeldUntilReleased(t, ops, i, j - 1, id);
      assert !ReleasedAt(t, ops, j - 1, id);
      RunsKeepRowsConsistent(t, ops[..j - 1]);
      ReplayNext(t, ops, j - 1);
      StepBalances(Replay(t, ops[..j - 1]), ops[j - 1], id);
    }
  }

  /** No two executions of one row overlap: between two granted claims a failure of that
      row is recorded. */
  lemma ExecutionsNeverOverlap(t: Table, ops: seq<StoreOp>, i: nat, j: nat, id: string)
    requires TableConsistent(t) && i < j < |ops|
    requires Granted(Replay(t, ops[..i]), ops[i], id)
    requires Granted(Replay(t, ops[..j]), ops[j], id)
    ensures exists m :: i < m < j && ReleasedAt(t, ops, m, id)
  {
    ReplayNext(t, ops, i);
    RunsKeepRowsConsistent(t, ops[..i]);
    StepBalances(Replay(t, ops[..i]), ops[i], id);
    if forall m :: i < m < j ==> !ReleasedAt(t, ops, m, id) {
      HeldUntilReleased(t, ops, i + 1, j, id);
    }
  }

  // ----- the owner's decision -----

  /** Operation `i` decides the row: it is the owner's call and the row waits for one. */
  ghost predicate DecidedAt(t: Table, ops: seq<StoreOp>, i: int, id: string, approve: bool) {
    && 0 <= i < |ops| && ops[i] == Decide(id, approve)
    && id in Replay(t, ops[..i]) && Replay(t, ops[..i])[id].decision == Pending
  }

  ghost predicate Decided(t: Table, ops: seq<StoreOp>, id: string, approve: bool) {
    exists i :: DecidedAt(t, ops, i, id, approve)
  }

  /** No decision on this row precedes the run. */
  ghost predicate Undecided(t: Table, id: string) {
    TableConsistent(t) && (id in t ==> t[id].decision == Pending)
  }

  lemma DecidedNext(t: Table, ops: seq<StoreOp>, id: string, approve: bool)
    requires ops != []
    ensures Decided(t, ops, id, approve) <==>
              Decided(t, ops[..|ops| - 1], id, approve) || DecidedAt(t, ops, |ops| - 1, id, approve)
  {
    hide Apply, Replay;
    var before := ops[..|ops| - 1];
    forall i | 0 <= i < |before|
      ensures DecidedAt(t, before, i, id, approve) <==> DecidedAt(t, ops, i, id, approve)
    {
      assert before[..i] == ops[..i];
    }
    if i :| DecidedAt(t, before, i, id, approve) {
      assert DecidedAt(t, ops, i, id, approve);
    }
    if i :| DecidedAt(t, ops, i, id, approve) {
      assert i < |before| ==> DecidedAt(t, before, i, id, approve);
    }
  }

  predicate HasDecision(t: Table, id: string, decision: Decision) {
    id in t && t[id].decision == decision
  }

  lemma StepDecides(t: Table, op: StoreOp, id: string)
    ensures HasDecision(Apply(t, op), id, Approved) <==>
              HasDecision(t, id, Approved) || (op == Decide(id, true) && HasDecision(t, id, Pending))
    ensures HasDecision(Apply(t, op), id, Rejected) <==>
              HasDecision(t, id, Rejected) || (op == Decide(id, false) && HasDecision(t, id, Pending))
  {
  }

  /** In every run a row is approved exactly if the owner approved it while it was pending,
      and rejected exactly if the owner refused it then. */
  lemma {:induction false} OwnerDecides(t: Table, ops: seq<StoreOp>, id: string)
    requires Undecided(t, id)
    ensures HasDecision(Replay(t, ops), id, Approved) <==> Decided(t, ops, id, true)
    ensures HasDecision(Replay(t, ops), id, Rejected) <==> Decided(t, ops, id, false)
  {
    if ops != [] {
      OwnerDecides(t, ops[..|ops| - 1], id);
      DecidedNext(t, ops, id, true);
      DecidedNext(t, ops, id, false);
      StepDecides(Replay(t, ops[..|ops| - 1]), ops[|ops| - 1], id);
      hide Decided, Undecided, Apply;
    }
  }

  /** A row can be claimed exactly if the owner approved it and it is neither executing nor
      completed; its own approval and every recorded failure leave it so. */
  lemma ClaimableExactly(t: Table, ops: seq<StoreOp>, id: string)
    requires Undecided(t, id)
    ensures Claimable(Replay(t, ops), id) <==> Decided(t, ops, id, true) && Held(Replay(t, ops), id) == 0
    ensures DecidedAt(t, ops, |ops| - 1, id, true) || ReleasedAt(t, ops, |ops| - 1, id) ==> Claimable(Replay(t, ops), id)
    ensures ReleasedAt(t, ops, |ops| - 1, id) ==>
              && Replay(t, ops)[id].execution == Failed
              && (ops[|ops| - 1].Fail? ==> Replay(t, ops)[id].error == Some(ops[|ops| - 1].error))
  {
    OwnerDecides(t, ops, id);
    RunsKeepRowsConsistent(t, ops);
    if ops != [] {
      RunsKeepRowsConsistent(t, ops[..|ops| - 1]);
    }
  }

  lemma {:induction false} ClaimsNeedApproval(t: Table, ops: seq<StoreOp>, id: string)
    requires Undecided(t, id) && Claims(t, ops, id) > 0
    ensures Decided(t, ops, id, true)
  {
    var before := ops[..|ops| - 1];
    DecidedNext(t, ops, id, true);
    if Claims(t, before, id) > 0 {
      ClaimsNeedApproval(t, before, id);
    } else {
      OwnerDecides(t, before, id);
    }
  }

  /** A row the owner refused is never executed, however often it is claimed. */
  lemma RefusedIsNeverExecuted(t: Table, ops: seq<StoreOp>, id: string)
    requires Undecided(t, id) && Decided(t, ops, id, false)
    ensures Claims(t, ops, id) == 0 && !Decided(t, ops, id, true)
  {
    OwnerDecides(t, ops, id);
    if Claims(t, ops, id) > 0 {
      ClaimsNeedApproval(t, ops, id);
    }
  }

  /** Operation `i` completes an execution of the row with this result. */
  ghost predicate CompletedAt(t: Table, ops: seq<StoreOp>, i: int, id: string, result: ExecutionResult) {
    0 <= i < |ops| && ops[i] == Complete(id, result) && InProgress(Replay(t, ops[..i]), id)
  }

  ghost predicate Reported(t: Table, ops: seq<StoreOp>, id: string, result: ExecutionResult) {
    exists i :: CompletedAt(t, ops, i, id, result)
  }

  lemma ReportedNext(t: Table, ops: seq<StoreOp>, id: string, result: ExecutionResult)
    requires ops != []
    ensures Reported(t, ops, id, result) <==>
              Reported(t, ops[..|ops| - 1], id, result) || CompletedAt(t, ops, |ops| - 1, id, result)
  {
    hide Apply, Replay;
    var before := ops[..|ops| - 1];
    forall i | 0 <= i < |before|
      ensures CompletedAt(t, before, i, id, result) <==> CompletedAt(t, ops, i, id, result)
    {
      assert before[..i] == ops[..i];
    }
    if i :| CompletedAt(t, before, i, id, result) {
      assert CompletedAt(t, ops, i, id, result);
    }
    if i :| CompletedAt(t, ops, i, id, result) {
      assert i < |before| ==> CompletedAt(t, before, i, id, result);
    }
  }

  predicate Holds(t: Table, id: string, result: ExecutionResult) {
    id in t && t[id].execution == Completed && t[id].result == Some(result)
  }

  lemma StepHolds(t: Table, op: StoreOp, id: string, result: ExecutionResult)
    requires TableConsistent(t)
    ensures Holds(Apply(t, op), id, result) <==> Holds(t, id, result) || (op == Complete(id, result) && InProgress(t, id))
  {
  }

  /** A row is completed with a result exactly if an execution in progress reported it. */
  lemma {:induction false} ResultIsTheReportedOne(t: Table, ops: seq<StoreOp>, id: string, result: ExecutionResult)
    requires Undecided(t, id)
    ensures Holds(Replay(t, ops), id, result) <==> Reported(t, ops, id, result)
  {
    if ops != [] {
      var before := ops[..|ops| - 1];
      ResultIsTheReportedOne(t, before, id, result);
      RunsKeepRowsConsistent(t, before);
      ReportedNext(t, ops, id, result);
      StepHolds(Replay(t, before), ops[|before|], id, result);
      hide Reported, Holds, Apply;
    }
  }

  // ----- what a row shows -----

  /** Operation `i` is the first to enqueue this id, with this proposal. */
  ghost predicate FirstEnqueuedAt(ops: seq<StoreOp>, i: int, id: string, proposal: Proposal) {
    && 0 <= i < |ops| && ops[i] == Enqueue(id, proposal)
    && forall j :: 0 <= j < i ==> !(ops[j].Enqueue? && ops[j].id == id)
  }

  /** A row exists exactly if its id was enqueued, and shows the first proposal enqueued for it. */
  lemma {:induction false} RowsShowTheFirstProposal(ops: seq<StoreOp>, id: string)
    ensures id in Replay(map[], ops) <==> exists i :: 0 <= i < |ops| && ops[i].Enqueue? && ops[i].id == id
    ensures id in Replay(map[], ops) ==> exists i :: FirstEnqueuedAt(ops, i, id, Replay(map[], ops)[id].proposal)
  {
    if ops != [] {
      var before, op := ops[..|ops| - 1], ops[|ops| - 1];
      RowsShowTheFirstProposal(before, id);
      StepShows(Replay(map[], before), op, id);
      assert forall i :: 0 <= i < |before| ==> before[i] == ops[i];
      hide Apply;
      if id in Replay(map[], before) {
        var p := Replay(map[], before)[id].proposal;
        var i :| FirstEnqueuedAt(before, i, id, p);
        assert FirstEnqueuedAt(ops, i, id, p);
      } else if op.Enqueue? && op.id == id {
        assert FirstEnqueuedAt(ops, |before|, id, op.proposal);
      }
    }
  }

  lemma StepShows(t: Table, op: StoreOp, id: string)
    ensures id in Apply(t, op) <==> id in t || (op.Enqueue? && op.id == id)
    ensures id in Apply(t, op) ==> Apply(t, op)[id].proposal == if id in t then t[id].proposal else op.proposal
  {
  }
}
