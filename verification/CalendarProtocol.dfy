/** The execution protocol between the approval queue and the remote calendar, as small
    steps. Responses can be lost, the gateway can crash at any await and restart, other
    clients can edit the calendar, and a request that was sent can reach the server at any
    later time, even more than once. A step that is not enabled changes nothing, so a run
    is any sequence of steps. */
module CalendarProtocol {
  import opened Common
  import opened CalendarEvents
  import opened CalendarApprovals

  datatype Key = Key(calendar: string, id: string)

  /** `marker` is the private property mailAgentApprovalId. */
  datatype StoredEvent = StoredEvent(body: EventBody, etag: Option<nat>, marker: Option<string>)

  /** Every write draws a fresh number, which becomes the event's etag when the server
      tags the event at all. */
  datatype Server = Server(events: map<Key, StoredEvent>, nextEtag: nat)

  datatype WireOp =
    | Insert(payload: Payload)
    | Patch(payload: Payload, ifMatch: Option<nat>)
    | Erase(ifMatch: Option<nat>)

  datatype Request = Request(approval: string, key: Key, op: WireOp)

  datatype Reply = Applied | AlreadyExists | Missing | PreconditionFailed

  datatype Effect = Inserted | Changed | Erased

  /** One applied write; `origin` is None for another client's edit. */
  datatype Write = Write(origin: Option<Request>, key: Key, effect: Effect)

  /** Where an execution stands between two awaits. */
  datatype Pc =
    | Checking
    | Reading
    | Waiting(nonce: nat)
    | Rereading
    | Finishing(result: ExecutionResult)
    | Failing(error: Error)

  datatype World = World(
    rows: Table,
    up: bool,
    procs: map<string, Pc>,
    server: Server,
    sent: map<nat, Request>,
    replies: map<nat, Reply>,
    nextNonce: nat,
    log: seq<Write>)

  /** The deterministic event id. The truncated digest is modelled by the approval id
      itself: only its injectivity matters. */
  function RemoteCreateId(approval: string): string {
    "ma" + approval
  }

  function TargetKey(approval: string, p: Proposal): Key {
    Key(p.calendar, if p.action == Create then RemoteCreateId(approval) else p.eventId.value)
  }

  function FreshEtag(server: Server, tagged: bool): Option<nat> {
    if tagged then Some(server.nextEtag) else None
  }

  function Put(server: Server, key: Key, body: EventBody, marker: Option<string>, tagged: bool): Server {
    Server(server.events[key := StoredEvent(body, FreshEtag(server, tagged), marker)], server.nextEtag + 1)
  }

  /** The If-Match condition of section 13.1.1 of RFC 9110. */
  predicate ConditionHolds(server: Server, key: Key, ifMatch: Option<nat>) {
    ifMatch == None || (key in server.events && server.events[key].etag == ifMatch)
  }

  /** The server's side of one request: insert if absent, write if the condition holds. */
  function Handle(server: Server, req: Request, tagged: bool): (Server, Reply) {
    var here := req.key in server.events;
    match req.op
    case Insert(payload) =>
      if here then (server, AlreadyExists)
      else (Put(server, req.key, FreshBody(payload), Some(req.approval), tagged), Applied)
    case Patch(payload, ifMatch) =>
      if !here then (server, Missing)
      else if !ConditionHolds(server, req.key, ifMatch) then (server, PreconditionFailed)
      else
        var event := server.events[req.key];
        (Put(server, req.key, MergePatch(event.body, payload), event.marker, tagged), Applied)
    case Erase(ifMatch) =>
      if !here then (server, Missing)
      else if !ConditionHolds(server, req.key, ifMatch) then (server, PreconditionFailed)
      else (server.(events := server.events - {req.key}), Applied)
  }

  function EffectOf(op: WireOp): Effect {
    match op
    case Insert(_) => Inserted
    case Patch(_, _) => Changed
    case Erase(_) => Erased
  }

  /** The events of a calendar that the listing call asks for. */
  function Overlapping(server: Server, calendar: string, draft: EventDraft): set<string> {
    set key | key in server.events && key.calendar == calendar && !server.events[key].body.cancelled
              && Overlaps(server.events[key].body, draft.start, draft.end) :: key.id
  }

  const LISTING_CAP: nat := 50

  function StartOf(server: Server, calendar: string, id: string): int {
    if Key(calendar, id) in server.events then Instant(server.events[Key(calendar, id)].body.start) else 0
  }

  /** Listed by start, and nothing left out starts before anything listed. */
  predicate EarliestFirst(server: Server, calendar: string, ids: set<string>, listing: seq<string>) {
    && (forall i, j :: 0 <= i < j < |listing| ==> listing[i] != listing[j])
    && (forall i :: 0 <= i < |listing| ==> listing[i] in ids)
    && (forall i, j :: 0 <= i < j < |listing| ==>
          StartOf(server, calendar, listing[i]) <= StartOf(server, calendar, listing[j]))
    && (forall i, id :: 0 <= i < |listing| && id in ids && id !in listing ==>
          StartOf(server, calendar, listing[i]) <= StartOf(server, calendar, id))
  }

  /** What the server may answer to the listing call, which orders by start: distinct
      overlapping events, earliest first, all of them unless the cap of 50 was reached. */
  predicate IsListing(server: Server, calendar: string, draft: EventDraft, listing: seq<string>) {
    var ids := Overlapping(server, calendar, draft);
    && |listing| <= LISTING_CAP && EarliestFirst(server, calendar, ids, listing)
    && (|listing| < LISTING_CAP ==> forall id :: id in ids ==> id in listing)
  }

  /** A listed event is a conflict unless it is excluded or transparent. */
  predicate IsConflict(server: Server, calendar: string, id: string, exclude: string) {
    && id != "" && id != exclude
    && Key(calendar, id) in server.events
    && Opaque(server.events[Key(calendar, id)].body)
  }

  function ConflictsIn(server: Server, calendar: string, listing: seq<string>, exclude: string): seq<string> {
    if listing == [] then []
    else
      var rest := ConflictsIn(server, calendar, listing[..|listing| - 1], exclude);
      var id := listing[|listing| - 1];
      if IsConflict(server, calendar, id, exclude) then rest + [id] else rest
  }

  function Excluded(p: Proposal): string {
    p.eventId.GetOr("")
  }

  /** The remote event carries this approval's marker and shows the approved draft. */
  predicate OwnEvent(event: StoredEvent, approval: string, draft: EventDraft) {
    event.marker == Some(approval) && Matches(event.body, draft)
  }

  /** After the conflict check: read the target and either finish, fail or send a write. */
  function NextAction(server: Server, id: string, p: Proposal): (Pc, Option<Request>) {
    var key := TargetKey(id, p);
    var done := Finishing(ExecutionResult(key.id, true));
    match p.action
    case Create =>
      if key in server.events then
        (if OwnEvent(server.events[key], id, p.event.value) then done else Failing(Conflict), None)
      else (Reading, Some(Request(id, key, Insert(GooglePayload(p.event.value)))))
    case Update =>
      if key !in server.events then (Failing(NotFound), None)
      else
        var event := server.events[key];
        if p.expectedEtag.Some? && event.etag != p.expectedEtag then
          (if Matches(event.body, p.event.value) then done else Failing(WrongState), None)
        else (Reading, Some(Request(id, key, Patch(GooglePayload(p.event.value), event.etag))))
    case Delete =>
      if key !in server.events then (done, None)
      else
        var event := server.events[key];
        if p.expectedEtag.Some? && event.etag != p.expectedEtag then (Failing(WrongState), None)
        else (Reading, Some(Request(id, key, Erase(event.etag))))
  }

  datatype Step =
    | Propose(id: string, proposal: Proposal)
    | DecideApproval(id: string, approve: bool)
    | Start(id: string)
    | Check(id: string, listing: seq<string>)
    | Read(id: string)
    | Deliver(nonce: nat, tagged: bool)
    | Respond(id: string)
    | Reread(id: string)
    | Break(id: string)
    | Finish(id: string)
    | Crash
    | Restart
    | External(key: Key, change: Option<EventBody>, tagged: bool)

  /** Proposing and deciding are plain transactions of the approval store. */
  function DoAdmin(w: World, op: StoreOp): World {
    if w.up then w.(rows := Apply(w.rows, op)) else w
  }

  function AfterClaim(p: Proposal): Pc {
    if p.action == Delete then Reading else Checking
  }

  function DoStart(w: World, id: string): World {
    var rows := ClaimStep(w.rows, id).0;
    if w.up && Claimable(w.rows, id) then
      w.(rows := rows, procs := w.procs[id := AfterClaim(rows[id].proposal)])
    else w
  }

  predicate At(w: World, id: string, pc: Pc) {
    id in w.procs && w.procs[id] == pc && id in w.rows
  }

  function DoCheck(w: World, id: string, listing: seq<string>): World {
    if At(w, id, Checking) && w.rows[id].proposal.action != Delete
       && IsListing(w.server, w.rows[id].proposal.calendar, w.rows[id].proposal.event.value, listing) then
      var p := w.rows[id].proposal;
      var conflicts := ConflictsIn(w.server, p.calendar, listing, Excluded(p));
      w.(procs := w.procs[id := if conflicts != [] && !p.allowConflict then Failing(Conflict) else Reading])
    else w
  }

  function DoRead(w: World, id: string): World {
    if At(w, id, Reading) then
      var (pc, request) := NextAction(w.server, id, w.rows[id].proposal);
      if request.Some? then
        w.(procs := w.procs[id := Waiting(w.nextNonce)],
           sent := w.sent[w.nextNonce := request.value],
           nextNonce := w.nextNonce + 1)
      else w.(procs := w.procs[id := pc])
    else w
  }

  function DoDeliver(w: World, nonce: nat, tagged: bool): World {
    if nonce in w.sent then
      var req := w.sent[nonce];
      var (server, reply) := Handle(w.server, req, tagged);
      w.(server := server,
         replies := if nonce in w.replies then w.replies else w.replies[nonce := reply],
         log := if reply == Applied then w.log + [Write(Some(req), req.key, EffectOf(req.op))] else w.log)
    else w
  }

  function DoRespond(w: World, id: string): World {
    if id in w.procs && w.procs[id].Waiting? && w.procs[id].nonce in w.replies && w.procs[id].nonce in w.sent then
      var req := w.sent[w.procs[id].nonce];
      var pc := match w.replies[w.procs[id].nonce]
                case Applied => Finishing(ExecutionResult(req.key.id, false))
                case AlreadyExists => Rereading
                case _ => Failing(Remote);
      w.(procs := w.procs[id := pc])
    else w
  }

  function DoReread(w: World, id: string): World {
    if At(w, id, Rereading) && w.rows[id].proposal.action == Create then
      var p := w.rows[id].proposal;
      var key := TargetKey(id, p);
      var mine := key in w.server.events && OwnEvent(w.server.events[key], id, p.event.value);
      w.(procs := w.procs[id := if mine then Finishing(ExecutionResult(key.id, true)) else Failing(Conflict)])
    else w
  }

  /** Any await can raise, in particular when a response is lost. */
  function DoBreak(w: World, id: string): World {
    if id in w.procs then w.(procs := w.procs[id := Failing(Remote)]) else w
  }

  function DoFinish(w: World, id: string): World {
    if id in w.procs && w.procs[id].Finishing? then
      w.(rows := CompleteStep(w.rows, id, w.procs[id].result).0, procs := w.procs - {id})
    else if id in w.procs && w.procs[id].Failing? then
      w.(rows := FailStep(w.rows, id, w.procs[id].error).0, procs := w.procs - {id})
    else w
  }

  function DoCrash(w: World): World {
    w.(up := false, procs := map[])
  }

  /** Start-up recovers the orphaned executions before it serves anything. */
  function DoRestart(w: World): World {
    if w.up then w else w.(up := true, rows := RecoverStep(w.rows))
  }

  /** Another client inserts, rewrites or deletes an event. It never forges the private
      marker: a new event has none and a rewritten one keeps its own. */
  function DoExternal(w: World, key: Key, change: Option<EventBody>, tagged: bool): World {
    var here := key in w.server.events;
    match change
    case Some(body) =>
      w.(server := Put(w.server, key, body, if here then w.server.events[key].marker else None, tagged),
         log := w.log + [Write(None, key, if here then Changed else Inserted)])
    case None =>
      if here then
        w.(server := w.server.(events := w.server.events - {key}), log := w.log + [Write(None, key, Erased)])
      else w
  }

  function Do(w: World, step: Step): World {
    match step
    case Propose(id, proposal) => DoAdmin(w, Enqueue(id, proposal))
    case DecideApproval(id, approve) => DoAdmin(w, Decide(id, approve))
    case Start(id) => DoStart(w, id)
    case Check(id, listing) => DoCheck(w, id, listing)
    case Read(id) => DoRead(w, id)
    case Deliver(nonce, tagged) => DoDeliver(w, nonce, tagged)
    case Respond(id) => DoRespond(w, id)
    case Reread(id) => DoReread(w, id)
    case Break(id) => DoBreak(w, id)
    case Finish(id) => DoFinish(w, id)
    case Crash => DoCrash(w)
    case Restart => DoRestart(w)
    case External(key, change, tagged) => DoExternal(w, key, change, tagged)
  }

  function Run(w: World, steps: seq<Step>): World {
    if steps == [] then w else Do(Run(w, steps[..|steps| - 1]), steps[|steps| - 1])
  }

  /** A calendar no approval has touched yet. */
  predicate Untouched(server: Server) {
    forall key :: key in server.events ==>
      && server.events[key].marker == None
      && (server.events[key].etag.Some? ==> server.events[key].etag.value < server.nextEtag)
  }

  function Init(server: Server): World {
    World(map[], true, map[], server, map[], map[], 0, [])
  }
}
