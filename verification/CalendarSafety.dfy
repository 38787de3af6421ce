/** What every run of the calendar protocol keeps. */
module CalendarSafety {
  import opened Common
  import opened CalendarEvents
  import opened CalendarApprovals
  import opened CalendarProtocol

  // ----- every request is the one its approval allows -----

  /** The request that the approved proposal calls for, with the frozen etag as its
      condition whenever there is one. */
  ghost predicate Conforms(req: Request, p: Proposal) {
    && req.key == TargetKey(req.approval, p)
    && match p.action
       case Create => req.op == Insert(GooglePayload(p.event.value))
       case Update =>
         && req.op.Patch? && req.op.payload == GooglePayload(p.event.value)
         && (p.expectedEtag.Some? ==> req.op.ifMatch == p.expectedEtag)
       case Delete =>
         && req.op.Erase?
         && (p.expectedEtag.Some? ==> req.op.ifMatch == p.expectedEtag)
  }

  ghost predicate Authorized(rows: Table, req: Request) {
    && req.approval in rows
    && rows[req.approval].decision == Approved
    && Conforms(req, rows[req.approval].proposal)
  }

  ghost predicate ProcOk(w: World, id: string)
    requires id in w.procs
  {
    && w.up && InProgress(w.rows, id)
    && (w.procs[id].Waiting? ==> w.procs[id].nonce in w.sent && w.sent[w.procs[id].nonce].approval == id)
  }

  ghost predicate WriteOk(rows: Table, write: Write) {
    write.origin.Some? ==>
      && Authorized(rows, write.origin.value)
      && write.key == write.origin.value.key
      && write.effect == EffectOf(write.origin.value.op)
  }

  ghost predicate Wired(w: World) {
    && TableConsistent(w.rows)
    && (forall id :: id in w.procs ==> ProcOk(w, id))
    && (forall n :: n in w.sent ==> n < w.nextNonce && Authorized(w.rows, w.sent[n]))
    && (forall n :: n in w.replies ==> n in w.sent)
    && (forall i :: 0 <= i < |w.log| ==> WriteOk(w.rows, w.log[i]))
  }

  /** Row changes that keep every authorization. */
  ghost predicate RowsExtend(rows: Table, rows': Table) {
    forall id :: id in rows ==>
      && id in rows'
      && rows'[id].proposal == rows[id].proposal
      && (rows[id].decision != Pending ==> rows'[id].decision == rows[id].decision)
  }

  lemma ApplyExtendsRows(t: Table, op: StoreOp)
    requires TableConsistent(t)
    ensures TableConsistent(Apply(t, op)) && RowsExtend(t, Apply(t, op))
  {
    StepKeepsRowsConsistent(t, op);
  }

  lemma NextActionConforms(server: Server, id: string, p: Proposal)
    ensures var request := NextAction(server, id, p).1;
            request.Some? ==> request.value.approval == id && Conforms(request.value, p)
  {
  }

  lemma ProcChangeKeepsWired(w: World, id: string, pc: Pc)
    requires Wired(w) && id in w.procs
    requires pc.Waiting? ==> pc.nonce in w.sent && w.sent[pc.nonce].approval == id
    ensures Wired(w.(procs := w.procs[id := pc]))
  {
    var w' := w.(procs := w.procs[id := pc]);
    assert ProcOk(w, id);
    forall other | other in w'.procs
      ensures ProcOk(w', other)
    {
      assert other in w.procs && ProcOk(w, other);
    }
  }

  /** A store transaction keeps the protocol wired if the remaining executions stay in
      progress. */
  lemma StoreCallKeepsWired(w: World, op: StoreOp, up: bool, procs: map<string, Pc>)
    requires Wired(w)
    requires forall id :: id in procs ==>
      && up && InProgress(Apply(w.rows, op), id)
      && ((id in w.procs && procs[id] == w.procs[id]) || !procs[id].Waiting?)
    ensures Wired(w.(rows := Apply(w.rows, op), up := up, procs := procs))
  {
    ApplyExtendsRows(w.rows, op);
    var w' := w.(rows := Apply(w.rows, op), up := up, procs := procs);
    forall id | id in procs
      ensures ProcOk(w', id)
    {
      if id in w.procs {
        assert ProcOk(w, id);
      }
    }
    forall n | n in w.sent
      ensures Authorized(w'.rows, w.sent[n])
    {
      assert Authorized(w.rows, w.sent[n]);
    }
    forall i | 0 <= i < |w.log|
      ensures WriteOk(w'.rows, w.log[i])
    {
      assert WriteOk(w.rows, w.log[i]);
    }
  }

  lemma SendKeepsWired(w: World, id: string, req: Request)
    requires Wired(w) && id in w.procs && req.approval == id && Conforms(req, w.rows[id].proposal)
    ensures Wired(w.(procs := w.procs[id := Waiting(w.nextNonce)],
                     sent := w.sent[w.nextNonce := req],
                     nextNonce := w.nextNonce + 1))
  {
    assert ProcOk(w, id) && RowConsistent(w.rows[id]);
    var sent := w.sent[w.nextNonce := req];
    assert w.nextNonce !in w.sent;
    var wider := w.(sent := sent, nextNonce := w.nextNonce + 1);
    forall other | other in w.procs
      ensures ProcOk(wider, other)
    {
      assert ProcOk(w, other);
    }
    forall n | n in sent
      ensures n < wider.nextNonce && Authorized(w.rows, sent[n])
    {
      assert n in w.sent ==> Authorized(w.rows, w.sent[n]);
    }
    ProcChangeKeepsWired(wider, id, Waiting(w.nextNonce));
  }

  // ----- what a step does to the server -----

  ghost function IfMatch(op: WireOp): Option<nat> {
    match op
    case Insert(_) => None
    case Patch(_, ifMatch) => ifMatch
    case Erase(ifMatch) => ifMatch
  }

  ghost function Condition(write: Write): Option<nat> {
    if write.origin.Some? then IfMatch(write.origin.value.op) else None
  }

  /** The shape of every write, whoever sent it. */
  ghost predicate Writes(before: Server, after: Server, write: Write) {
    && before.nextEtag <= after.nextEtag
    && after.events.Keys == (if write.effect == Erased then before.events.Keys - {write.key} else before.events.Keys + {write.key})
    && (forall key :: key in before.events && key != write.key ==> after.events[key] == before.events[key])
    && (write.key in before.events <==> write.effect != Inserted)
    && ConditionHolds(before, write.key, Condition(write))
    && (write.key in after.events ==>
          var event := after.events[write.key];
          && (event.etag.Some? ==> event.etag.value == before.nextEtag < after.nextEtag)
          && event.marker ==
             if write.effect == Changed then before.events[write.key].marker
             else if write.origin.Some? then Some(write.origin.value.approval)
             else None)
  }

  lemma HandleWrites(server: Server, req: Request, tagged: bool)
    requires Handle(server, req, tagged).1 == Applied
    ensures Writes(server, Handle(server, req, tagged).0, Write(Some(req), req.key, EffectOf(req.op)))
  {
  }

  /** The step leaves the server and its log alone or appends exactly one write. */
  ghost predicate Logged(w: World, w': World) {
    || (w'.server == w.server && w'.log == w.log)
    || (&& |w'.log| == |w.log| + 1
        && w'.log[..|w.log|] == w.log
        && Writes(w.server, w'.server, w'.log[|w.log|]))
  }

  lemma DeliverLogs(w: World, nonce: nat, tagged: bool)
    ensures var w' := DoDeliver(w, nonce, tagged);
            && Logged(w, w')
            && (|w'.log| > |w.log| ==>
                  nonce in w.sent && w'.log[|w.log|] == Write(Some(w.sent[nonce]), w.sent[nonce].key, EffectOf(w.sent[nonce].op)))
  {
    if nonce in w.sent && Handle(w.server, w.sent[nonce], tagged).1 == Applied {
      HandleWrites(w.server, w.sent[nonce], tagged);
    }
  }

  lemma ExternalLogs(w: World, key: Key, change: Option<EventBody>, tagged: bool)
    ensures var w' := DoExternal(w, key, change, tagged);
            Logged(w, w') && (|w'.log| > |w.log| ==> w'.log[|w.log|].origin == None)
  {
  }

  lemma StepLogs(w: World, step: Step)
    ensures Logged(w, Do(w, step))
    ensures var w' := Do(w, step);
            |w'.log| > |w.log| && w'.log[|w.log|].origin.Some? ==>
              && step.Deliver? && step.nonce in w.sent
              && w'.log[|w.log|] == Write(Some(w.sent[step.nonce]), w.sent[step.nonce].key, EffectOf(w.sent[step.nonce].op))
  {
    hide Writes, DoDeliver, DoExternal, NextAction, Handle, IsListing;
    hide ConflictsIn, Apply, ClaimStep, CompleteStep, FailStep, RecoverStep;
    match step {
      case Deliver(nonce, tagged) => DeliverLogs(w, nonce, tagged);
      case External(key, change, tagged) => ExternalLogs(w, key, change, tagged);
      case _ =>
    }
  }

  lemma WriteKeepsWired(w: World, server: Server, replies: map<nat, Reply>, log: seq<Write>)
    requires Wired(w)
    requires forall n :: n in replies ==> n in w.sent
    requires log == w.log || (|log| == |w.log| + 1 && log[..|w.log|] == w.log && WriteOk(w.rows, log[|w.log|]))
    ensures Wired(w.(server := server, replies := replies, log := log))
  {
  }

  lemma DeliverKeepsWired(w: World, nonce: nat, tagged: bool)
    requires Wired(w)
    ensures Wired(DoDeliver(w, nonce, tagged))
  {
    if nonce in w.sent {
      var w' := DoDeliver(w, nonce, tagged);
      assert Authorized(w.rows, w.sent[nonce]);
      WriteKeepsWired(w, w'.server, w'.replies, w'.log);
    }
  }

  lemma ReadKeepsWired(w: World, id: string)
    requires Wired(w)
    ensures Wired(DoRead(w, id))
  {
    if At(w, id, Reading) {
      var (pc, request) := NextAction(w.server, id, w.rows[id].proposal);
      NextActionConforms(w.server, id, w.rows[id].proposal);
      if request.Some? {
        SendKeepsWired(w, id, request.value);
      } else {
        ProcChangeKeepsWired(w, id, pc);
      }
    }
  }

  lemma FinishKeepsWired(w: World, id: string)
    requires Wired(w)
    ensures Wired(DoFinish(w, id))
  {
    if id in w.procs && (w.procs[id].Finishing? || w.procs[id].Failing?) {
      var op := if w.procs[id].Finishing? then Complete(id, w.procs[id].result) else Fail(id, w.procs[id].error);
      forall other | other in w.procs - {id}
        ensures InProgress(Apply(w.rows, op), other)
      {
        assert ProcOk(w, other);
      }
      StoreCallKeepsWired(w, op, w.up, w.procs - {id});
      assert w.up by { assert ProcOk(w, id); }
    }
  }

  lemma AdminKeepsWired(w: World, op: StoreOp)
    requires Wired(w) && (op.Enqueue? || op.Decide?)
    ensures Wired(DoAdmin(w, op))
  {
    if w.up {
      forall id | id in w.procs
        ensures InProgress(Apply(w.rows, op), id)
      {
        assert ProcOk(w, id) && RowConsistent(w.rows[id]);
      }
      StoreCallKeepsWired(w, op, w.up, w.procs);
    }
  }

  lemma StartKeepsWired(w: World, id: string)
    requires Wired(w)
    ensures Wired(DoStart(w, id))
  {
    if w.up && Claimable(w.rows, id) {
      var procs := DoStart(w, id).procs;
      forall other | other in procs
        ensures InProgress(Apply(w.rows, Claim(id)), other)
      {
        if other != id {
          assert ProcOk(w, other);
        }
      }
      StoreCallKeepsWired(w, Claim(id), w.up, procs);
    }
  }

  lemma CheckKeepsWired(w: World, id: string, listing: seq<string>)
    requires Wired(w)
    ensures Wired(DoCheck(w, id, listing))
  {
  }

  lemma RespondKeepsWired(w: World, id: string)
    requires Wired(w)
    ensures Wired(DoRespond(w, id))
  {
    if DoRespond(w, id) != w {
      ProcChangeKeepsWired(w, id, DoRespond(w, id).procs[id]);
    }
  }

  lemma RereadKeepsWired(w: World, id: string)
    requires Wired(w)
    ensures Wired(DoReread(w, id))
  {
  }

  lemma BreakKeepsWired(w: World, id: string)
    requires Wired(w)
    ensures Wired(DoBreak(w, id))
  {
  }

  lemma CrashKeepsWired(w: World)
    requires Wired(w)
    ensures Wired(DoCrash(w))
  {
  }

  lemma DownMeansIdle(w: World)
    requires Wired(w)
    ensures w.up || w.procs == map[]
  {
  }

  lemma RestartIsRecovery(w: World)
    requires !w.up && w.procs == map[]
    ensures DoRestart(w) == w.(rows := Apply(w.rows, Recover), up := true, procs := map[])
  {
    hide RecoverStep;
  }

  lemma RestartKeepsWired(w: World)
    requires Wired(w)
    ensures Wired(DoRestart(w))
  {
    if w.up {
      assert DoRestart(w) == w;
    } else {
      DownMeansIdle(w);
      hide Wired, Apply, DoRestart, InProgress;
      RestartIsRecovery(w);
      StoreCallKeepsWired(w, Recover, true, map[]);
    }
  }

  lemma ExternalKeepsWired(w: World, key: Key, change: Option<EventBody>, tagged: bool)
    requires Wired(w)
    ensures Wired(DoExternal(w, key, change, tagged))
  {
    var w' := DoExternal(w, key, change, tagged);
    WriteKeepsWired(w, w'.server, w.replies, w'.log);
  }

  lemma StepKeepsWired(w: World, step: Step)
    requires Wired(w)
    ensures Wired(Do(w, step))
  {
    hide Wired, DoAdmin, DoStart, DoCheck, DoRead, DoDeliver;
    hide DoRespond, DoReread, DoBreak, DoFinish, DoCrash, DoRestart, DoExternal;
    match step {
      case Propose(id, proposal) => AdminKeepsWired(w, Enqueue(id, proposal));
      case DecideApproval(id, approve) => AdminKeepsWired(w, Decide(id, approve));
      case Start(id) => StartKeepsWired(w, id);
      case Check(id, listing) => CheckKeepsWired(w, id, listing);
      case Read(id) => ReadKeepsWired(w, id);
      case Deliver(nonce, tagged) => DeliverKeepsWired(w, nonce, tagged);
      case Respond(id) => RespondKeepsWired(w, id);
      case Reread(id) => RereadKeepsWired(w, id);
      case Break(id) => BreakKeepsWired(w, id);
      case Finish(id) => FinishKeepsWired(w, id);
      case Crash => CrashKeepsWired(w);
      case Restart => RestartKeepsWired(w);
      case External(key, change, tagged) => ExternalKeepsWired(w, key, change, tagged);
    }
  }

  lemma RowsExtendThemselves(rows: Table)
    ensures RowsExtend(rows, rows)
  {
  }

  lemma StepExtendsRows(w: World, step: Step)
    requires TableConsistent(w.rows)
    ensures RowsExtend(w.rows, Do(w, step).rows)
  {
    hide RowsExtend, EnqueueStep, DecideStep, ClaimStep, CompleteStep, FailStep, RecoverStep;
    hide NextAction, Handle, IsListing, ConflictsIn;
    RowsExtendThemselves(w.rows);
    match step {
      case Propose(id, proposal) => ApplyExtendsRows(w.rows, Enqueue(id, proposal));
      case DecideApproval(id, approve) => ApplyExtendsRows(w.rows, Decide(id, approve));
      case Start(id) => ApplyExtendsRows(w.rows, Claim(id));
      case Check(_, _) =>
      case Read(_) =>
      case Deliver(_, _) =>
      case Respond(_) =>
      case Reread(_) =>
      case Break(_) =>
      case Finish(id) =>
        if id in w.procs && w.procs[id].Finishing? {
          ApplyExtendsRows(w.rows, Complete(id, w.procs[id].result));
        } else if id in w.procs && w.procs[id].Failing? {
          ApplyExtendsRows(w.rows, Fail(id, w.procs[id].error));
        }
      case Crash =>
      case Restart => ApplyExtendsRows(w.rows, Recover);
      case External(_, _, _) =>
    }
  }

  lemma {:induction false} RunsAreWired(server: Server, steps: seq<Step>)
    ensures Wired(Run(Init(server), steps))
  {
    if steps != [] {
      RunsAreWired(server, steps[..|steps| - 1]);
      StepKeepsWired(Run(Init(server), steps[..|steps| - 1]), steps[|steps| - 1]);
    }
  }

  // ----- a frozen etag is spent by the first write that carries it -----

  ghost predicate Spent(server: Server, write: Write) {
    Condition(write).Some? ==>
      && Condition(write).value < server.nextEtag
      && (write.key in server.events ==> server.events[write.key].etag != Condition(write))
  }

  ghost predicate EtagsFresh(server: Server) {
    forall key :: key in server.events && server.events[key].etag.Some? ==>
      server.events[key].etag.value < server.nextEtag
  }

  ghost predicate EtagsSpent(w: World) {
    && EtagsFresh(w.server)
    && (forall i :: 0 <= i < |w.log| ==> Spent(w.server, w.log[i]))
    && (forall i, j :: 0 <= i < j < |w.log| && Condition(w.log[i]).Some? ==>
          w.log[i].key != w.log[j].key || Condition(w.log[i]) != Condition(w.log[j]))
  }

  lemma StepSpendsEtags(w: World, step: Step)
    requires EtagsSpent(w)
    ensures EtagsSpent(Do(w, step))
  {
    var w' := Do(w, step);
    StepLogs(w, step);
    hide Do;
    assert forall i :: 0 <= i < |w.log| ==> w'.log[i] == w'.log[..|w.log|][i];
    forall i | 0 <= i < |w'.log|
      ensures Spent(w'.server, w'.log[i])
    {
      if i < |w.log| {
        assert Spent(w.server, w.log[i]);
      }
    }
    forall i, j | 0 <= i < j < |w'.log| && Condition(w'.log[i]).Some?
      ensures w'.log[i].key != w'.log[j].key || Condition(w'.log[i]) != Condition(w'.log[j])
    {
      assert Spent(w.server, w.log[i]);
    }
  }

  lemma {:induction false} RunsSpendEtags(server: Server, steps: seq<Step>)
    requires Untouched(server)
    ensures EtagsSpent(Run(Init(server), steps))
  {
    if steps != [] {
      RunsSpendEtags(server, steps[..|steps| - 1]);
      StepSpendsEtags(Run(Init(server), steps[..|steps| - 1]), steps[|steps| - 1]);
    }
  }

  /** Log entry `i` is a write of an UPDATE or DELETE approval frozen against `etag` of the
      event at `key`. */
  ghost predicate FrozenWrite(w: World, i: int, key: Key, etag: nat) {
    && 0 <= i < |w.log| && w.log[i].key == key && w.log[i].origin.Some?
    && w.log[i].origin.value.approval in w.rows
    && var p := w.rows[w.log[i].origin.value.approval].proposal;
       p.action != Create && p.expectedEtag == Some(etag)
  }

  /** In every run, of all approvals frozen against the same etag of one event at most one
      is ever applied, and at most once. */
  lemma AtMostOneFrozenWrite(server: Server, steps: seq<Step>, key: Key, etag: nat, i: int, j: int)
    requires Untouched(server)
    requires FrozenWrite(Run(Init(server), steps), i, key, etag)
    requires FrozenWrite(Run(Init(server), steps), j, key, etag)
    ensures i == j
  {
    var w := Run(Init(server), steps);
    RunsAreWired(server, steps);
    RunsSpendEtags(server, steps);
    assert WriteOk(w.rows, w.log[i]) && WriteOk(w.rows, w.log[j]);
    assert Condition(w.log[i]) == Some(etag) == Condition(w.log[j]);
  }

  /** A frozen write was applied to exactly the version the owner saw: a delivery that
      changes the event finds the frozen etag on it. */
  lemma FrozenWriteMeetsItsVersion(w: World, nonce: nat, tagged: bool)
    requires Wired(w) && nonce in w.sent
    ensures var req := w.sent[nonce];
            var p := w.rows[req.approval].proposal;
            p.action != Create && p.expectedEtag.Some? && DoDeliver(w, nonce, tagged).server != w.server ==>
              req.key in w.server.events && w.server.events[req.key].etag == p.expectedEtag
  {
    assert Authorized(w.rows, w.sent[nonce]);
  }

  // ----- a create approval owns at most one remote event -----

  ghost function Tally(log: seq<Write>, key: Key, effect: Effect): nat {
    Count(log, (write: Write) => write.key == key && write.effect == effect)
  }

  ghost function Present(server: Server, key: Key): nat {
    if key in server.events then 1 else 0
  }

  lemma TallyAppend(log: seq<Write>, write: Write, key: Key, effect: Effect)
    ensures Tally(log + [write], key, effect) ==
              Tally(log, key, effect) + if write.key == key && write.effect == effect then 1 else 0
  {
    CountAppend(log, write, (write: Write) => write.key == key && write.effect == effect);
  }

  lemma LoggedBalances(w: World, w': World, key: Key)
    requires Logged(w, w')
    ensures Tally(w'.log, key, Inserted) + Tally(w.log, key, Erased) + Present(w.server, key)
         == Tally(w.log, key, Inserted) + Tally(w'.log, key, Erased) + Present(w'.server, key)
  {
    hide Tally;
    if w'.log != w.log {
      var write := w'.log[|w.log|];
      assert w'.log == w.log + [write];
      TallyAppend(w.log, write, key, Inserted);
      TallyAppend(w.log, write, key, Erased);
    }
  }

  /** Inserts and deletions of an id balance against its presence. */
  lemma {:induction false} InsertsBalanceDeletions(server: Server, steps: seq<Step>, key: Key)
    ensures var w := Run(Init(server), steps);
            Tally(w.log, key, Inserted) + Present(server, key) == Tally(w.log, key, Erased) + Present(w.server, key)
  {
    if steps != [] {
      var w := Run(Init(server), steps[..|steps| - 1]);
      InsertsBalanceDeletions(server, steps[..|steps| - 1], key);
      StepLogs(w, steps[|steps| - 1]);
      LoggedBalances(w, Do(w, steps[|steps| - 1]), key);
      hide Do, Tally, Present, Logged;
    }
  }

  ghost predicate InsertedBy(write: Write, key: Key, approval: string) {
    write.key == key && write.effect == Inserted && write.origin.Some? && write.origin.value.approval == approval
  }

  ghost predicate MarkerEarned(log: seq<Write>, key: Key, marker: Option<string>) {
    marker.Some? ==> exists i :: 0 <= i < |log| && InsertedBy(log[i], key, marker.value)
  }

  ghost predicate MarkersEarned(w: World) {
    forall key :: key in w.server.events ==> MarkerEarned(w.log, key, w.server.events[key].marker)
  }

  lemma StepEarnsMarkers(w: World, step: Step)
    requires MarkersEarned(w)
    ensures MarkersEarned(Do(w, step))
  {
    var w' := Do(w, step);
    StepLogs(w, step);
    hide Do;
    assert forall i :: 0 <= i < |w.log| ==> w'.log[i] == w'.log[..|w.log|][i];
    forall key | key in w'.server.events
      ensures MarkerEarned(w'.log, key, w'.server.events[key].marker)
    {
      var marker := w'.server.events[key].marker;
      if marker.Some? && !(|w'.log| > |w.log| && InsertedBy(w'.log[|w.log|], key, marker.value)) {
        assert key in w.server.events && w.server.events[key].marker == marker;
        var i :| 0 <= i < |w.log| && InsertedBy(w.log[i], key, marker.value);
        assert InsertedBy(w'.log[i], key, marker.value);
      }
    }
  }

  lemma {:induction false} RunsEarnMarkers(server: Server, steps: seq<Step>)
    requires Untouched(server)
    ensures MarkersEarned(Run(Init(server), steps))
  {
    if steps != [] {
      RunsEarnMarkers(server, steps[..|steps| - 1]);
      StepEarnsMarkers(Run(Init(server), steps[..|steps| - 1]), steps[|steps| - 1]);
    }
  }

  /** In every run the events that carry an approval's marker sit at that approval's own
      id, so there is at most one of them; it was inserted by that approval's own request,
      and the number of inserts at that id never exceeds its deletions by more than one. */
  lemma AtMostOneEventPerCreate(server: Server, steps: seq<Step>, approval: string, key: Key)
    requires Untouched(server)
    requires var w := Run(Init(server), steps);
             key in w.server.events && w.server.events[key].marker == Some(approval)
    ensures var w := Run(Init(server), steps);
            && approval in w.rows && w.rows[approval].proposal.action == Create
            && key == TargetKey(approval, w.rows[approval].proposal)
            && Tally(w.log, key, Inserted) <= Tally(w.log, key, Erased) + 1
  {
    var w := Run(Init(server), steps);
    RunsEarnMarkers(server, steps);
    RunsAreWired(server, steps);
    InsertsBalanceDeletions(server, steps, key);
    assert MarkerEarned(w.log, key, Some(approval));
    var i :| 0 <= i < |w.log| && InsertedBy(w.log[i], key, approval);
    assert WriteOk(w.rows, w.log[i]);
  }

  /** Two create approvals never aim at the same id. */
  lemma CreateIdsDiffer(a: string, b: string, p: Proposal, q: Proposal)
    requires p.action == Create == q.action && a != b
    ensures TargetKey(a, p) != TargetKey(b, q)
  {
    assert RemoteCreateId(a)[2..] == a;
    assert RemoteCreateId(b)[2..] == b;
  }

  /** A request that reaches the server, however late, changes no event but its target, and
      a create request changes no event that exists, whoever owns it. */
  lemma DeliveryTouchesOnlyItsTarget(w: World, nonce: nat, tagged: bool, key: Key)
    requires nonce in w.sent && key in w.server.events
    requires key != w.sent[nonce].key || w.sent[nonce].op.Insert?
    ensures var server := DoDeliver(w, nonce, tagged).server;
            key in server.events && server.events[key] == w.server.events[key]
  {
  }

  /** A create attempt that finds its id occupied never sends another insert. */
  lemma OccupiedIdIsNeverInsertedAgain(w: World, id: string)
    requires At(w, id, Reading) && w.rows[id].proposal.action == Create
    requires TargetKey(id, w.rows[id].proposal) in w.server.events
    ensures DoRead(w, id).sent == w.sent && !DoRead(w, id).procs[id].Waiting?
  {
  }

  // ----- a completed approval was achieved on the calendar -----

  /** The event already holds every value that the payload mentions. */
  ghost predicate Carries(body: EventBody, payload: Payload) {
    MergePatch(body, payload) == body
  }

  ghost predicate Goal(server: Server, id: string, p: Proposal) {
    var key := TargetKey(id, p);
    match p.action
    case Create => key in server.events && OwnEvent(server.events[key], id, p.event.value)
    case Update =>
      && key in server.events
      && (Matches(server.events[key].body, p.event.value) || Carries(server.events[key].body, GooglePayload(p.event.value)))
    case Delete => key !in server.events
  }

  /** At some moment of the run the calendar showed what the proposal asks for. */
  ghost predicate Achieved(server: Server, steps: seq<Step>, id: string, p: Proposal) {
    exists m :: 0 <= m <= |steps| && Goal(Run(Init(server), steps[..m]).server, id, p)
  }

  lemma StaysAchieved(server: Server, steps: seq<Step>, id: string, p: Proposal, earlier: bool)
    requires steps != []
    requires if earlier then Achieved(server, steps[..|steps| - 1], id, p) else Goal(Run(Init(server), steps).server, id, p)
    ensures Achieved(server, steps, id, p)
  {
    hide Run, Goal, Init;
    if earlier {
      var m :| 0 <= m <= |steps| - 1 && Goal(Run(Init(server), steps[..|steps| - 1][..m]).server, id, p);
      assert steps[..|steps| - 1][..m] == steps[..m];
    } else {
      assert steps[..|steps|] == steps;
    }
  }

  ghost predicate AnswersAchieved(server: Server, steps: seq<Step>, w: World) {
    forall n :: n in w.replies && n in w.sent && w.replies[n] == Applied && w.sent[n].approval in w.rows ==>
      Achieved(server, steps, w.sent[n].approval, w.rows[w.sent[n].approval].proposal)
  }

  ghost predicate Concluded(w: World, id: string) {
    id in w.rows && (w.rows[id].execution == Completed || (id in w.procs && w.procs[id].Finishing?))
  }

  ghost predicate RowsAchieved(server: Server, steps: seq<Step>, w: World) {
    forall id :: Concluded(w, id) ==> Achieved(server, steps, id, w.rows[id].proposal)
  }

  lemma AppliedWriteReachesGoal(server: Server, req: Request, p: Proposal, tagged: bool)
    requires Conforms(req, p) && Handle(server, req, tagged).1 == Applied
    ensures Goal(Handle(server, req, tagged).0, req.approval, p)
  {
  }

  ghost predicate Reached(w: World, server: Server, n: nat) {
    && n in w.sent && w.sent[n].approval in w.rows
    && Goal(server, w.sent[n].approval, w.rows[w.sent[n].approval].proposal)
  }

  ghost predicate AnsweredBefore(w: World, n: nat) {
    n in w.sent && n in w.replies && w.replies[n] == Applied
  }

  lemma DeliveredReply(w: World, nonce: nat, tagged: bool, n: nat)
    requires Wired(w) && n in DoDeliver(w, nonce, tagged).replies && DoDeliver(w, nonce, tagged).replies[n] == Applied
    ensures AnsweredBefore(w, n) || Reached(w, DoDeliver(w, nonce, tagged).server, n)
  {
    hide Goal, Handle;
    if nonce == n && n in w.sent && n !in w.replies {
      assert Authorized(w.rows, w.sent[n]);
      AppliedWriteReachesGoal(w.server, w.sent[n], w.rows[w.sent[n].approval].proposal, tagged);
    }
  }

  /** Requests stay sent; the number of a new one was unused. */
  ghost predicate KeepsSent(w: World, w': World) {
    forall n :: n in w.sent && n < w.nextNonce ==> n in w'.sent && w'.sent[n] == w.sent[n]
  }

  lemma ReadKeepsReplies(w: World, id: string)
    ensures DoRead(w, id).replies == w.replies && KeepsSent(w, DoRead(w, id))
  {
    hide NextAction;
  }

  lemma OtherStepsKeepReplies(w: World, step: Step)
    ensures !step.Deliver? ==> Do(w, step).replies == w.replies
    ensures KeepsSent(w, Do(w, step))
  {
    hide DoRead, NextAction, Handle, IsListing, ConflictsIn, Apply, ClaimStep, CompleteStep, FailStep, RecoverStep;
    match step {
      case Deliver(_, _) => hide KeepsSent; assert Do(w, step).sent == w.sent; SameSent(w, Do(w, step));
      case Read(id) => ReadKeepsReplies(w, id);
      case _ => hide KeepsSent; assert Do(w, step).sent == w.sent; SameSent(w, Do(w, step));
    }
  }

  lemma SameSent(w: World, w': World)
    requires w'.sent == w.sent
    ensures KeepsSent(w, w')
  {
  }

  /** A reply that a step adds answers a write that reached its goal in that step. */
  lemma NewReply(w: World, step: Step, n: nat)
    requires Wired(w) && n in Do(w, step).replies && Do(w, step).replies[n] == Applied
    ensures AnsweredBefore(w, n) || Reached(w, Do(w, step).server, n)
    ensures n in w.sent ==> n in Do(w, step).sent && Do(w, step).sent[n] == w.sent[n]
  {
    OtherStepsKeepReplies(w, step);
    if step.Deliver? {
      assert Do(w, step) == DoDeliver(w, step.nonce, step.tagged);
      hide Do, DoDeliver, Goal;
      DeliveredReply(w, step.nonce, step.tagged, n);
    } else {
      hide Do, Goal;
    }
  }

  ghost predicate AwaitsAnswered(w: World, id: string) {
    id in w.procs && w.procs[id].Waiting? && AnsweredBefore(w, w.procs[id].nonce)
    && w.sent[w.procs[id].nonce].approval == id
  }

  ghost predicate Supported(w: World, w': World, id: string) {
    id in w.rows && (Concluded(w, id) || Goal(w'.server, id, w.rows[id].proposal) || AwaitsAnswered(w, id))
  }

  /** What each step must not do: conclude a row out of nothing. */
  ghost predicate Honest(w: World, w': World, id: string) {
    Concluded(w', id) ==> Supported(w, w', id)
  }

  lemma AdminIsHonest(w: World, op: StoreOp, id: string)
    requires Wired(w) && (op.Enqueue? || op.Decide?)
    ensures Honest(w, DoAdmin(w, op), id)
  {
  }

  lemma StartIsHonest(w: World, other: string, id: string)
    ensures Honest(w, DoStart(w, other), id)
  {
  }

  lemma CheckIsHonest(w: World, other: string, listing: seq<string>, id: string)
    ensures Honest(w, DoCheck(w, other, listing), id)
  {
  }

  lemma ReadIsHonest(w: World, other: string, id: string)
    ensures Honest(w, DoRead(w, other), id)
  {
  }

  lemma DeliverIsHonest(w: World, nonce: nat, tagged: bool, id: string)
    ensures Honest(w, DoDeliver(w, nonce, tagged), id)
  {
  }

  lemma RespondIsHonest(w: World, other: string, id: string)
    requires Wired(w)
    ensures Honest(w, DoRespond(w, other), id)
  {
    if other == id && id in w.procs {
      assert ProcOk(w, id);
      hide Wired, ProcOk, Goal, Handle;
    } else {
      hide Wired, ProcOk, Goal, Handle;
    }
  }

  lemma RereadIsHonest(w: World, other: string, id: string)
    ensures Honest(w, DoReread(w, other), id)
  {
  }

  lemma BreakIsHonest(w: World, other: string, id: string)
    ensures Honest(w, DoBreak(w, other), id)
  {
  }

  lemma FinishIsHonest(w: World, other: string, id: string)
    ensures Honest(w, DoFinish(w, other), id)
  {
  }

  lemma CrashAndRestartAreHonest(w: World, id: string)
    ensures Honest(w, DoCrash(w), id) && Honest(w, DoRestart(w), id)
  {
  }

  lemma ExternalIsHonest(w: World, key: Key, change: Option<EventBody>, tagged: bool, id: string)
    ensures Honest(w, DoExternal(w, key, change, tagged), id)
  {
  }

  lemma StepsAreHonest(w: World, step: Step, id: string)
    requires Wired(w)
    ensures Honest(w, Do(w, step), id)
  {
    hide Wired, Honest, DoAdmin, DoStart, DoCheck, DoRead, DoDeliver;
    hide DoRespond, DoReread, DoBreak, DoFinish, DoCrash, DoRestart, DoExternal;
    match step {
      case Propose(other, proposal) => AdminIsHonest(w, Enqueue(other, proposal), id);
      case DecideApproval(other, approve) => AdminIsHonest(w, Decide(other, approve), id);
      case Start(other) => StartIsHonest(w, other, id);
      case Check(other, listing) => CheckIsHonest(w, other, listing, id);
      case Read(other) => ReadIsHonest(w, other, id);
      case Deliver(nonce, tagged) => DeliverIsHonest(w, nonce, tagged, id);
      case Respond(other) => RespondIsHonest(w, other, id);
      case Reread(other) => RereadIsHonest(w, other, id);
      case Break(other) => BreakIsHonest(w, other, id);
      case Finish(other) => FinishIsHonest(w, other, id);
      case Crash => CrashAndRestartAreHonest(w, id);
      case Restart => CrashAndRestartAreHonest(w, id);
      case External(key, change, tagged) => ExternalIsHonest(w, key, change, tagged, id);
    }
  }

  lemma {:induction false} RunsAchieve(server: Server, steps: seq<Step>)
    ensures AnswersAchieved(server, steps, Run(Init(server), steps)) && RowsAchieved(server, steps, Run(Init(server), steps))
  {
    if steps != [] {
      var before := steps[..|steps| - 1];
      var w, step, w' := Run(Init(server), before), steps[|steps| - 1], Run(Init(server), steps);
      RunsAchieve(server, before);
      RunsAreWired(server, before);
      StepExtendsRows(w, step);
      hide Do, Goal;
      forall n | n in w'.replies && n in w'.sent && w'.replies[n] == Applied && w'.sent[n].approval in w'.rows
        ensures Achieved(server, steps, w'.sent[n].approval, w'.rows[w'.sent[n].approval].proposal)
      {
        NewReply(w, step, n);
        assert Authorized(w.rows, w.sent[n]);
        StaysAchieved(server, steps, w.sent[n].approval, w.rows[w.sent[n].approval].proposal, AnsweredBefore(w, n));
      }
      forall id | Concluded(w', id)
        ensures Achieved(server, steps, id, w'.rows[id].proposal)
      {
        StepsAreHonest(w, step, id);
        StaysAchieved(server, steps, id, w.rows[id].proposal, !Goal(w'.server, id, w.rows[id].proposal));
      }
    }
  }

  /** In every run a row is completed only if the owner approved it and the calendar showed
      what it asks for at some moment of the run. */
  lemma CompletedMeansAchieved(server: Server, steps: seq<Step>, id: string)
    requires var w := Run(Init(server), steps); id in w.rows && w.rows[id].execution == Completed
    ensures var w := Run(Init(server), steps);
            w.rows[id].decision == Approved && Achieved(server, steps, id, w.rows[id].proposal)
  {
    RunsAreWired(server, steps);
    RunsAchieve(server, steps);
    var w := Run(Init(server), steps);
    assert RowConsistent(w.rows[id]) && Concluded(w, id);
  }
}
