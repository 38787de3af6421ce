/** The work queue of one mailbox: claims of single messages and of whole threads, recovery
    of stale claims, and the agent cycle that settles what it claimed. */
module WorkQueue {
  import opened Common
  import opened StableSort

  // ----- messages and processing rows -----

  /** A row of the messages table; the table is listed by ascending uid, its primary key. */
  datatype Message = Message(uid: nat, remoteId: Option<string>, internetId: Option<string>, thread: string)

  datatype Status = Running | Failed | Processed | BelowConfidence | IgnoredRule

  datatype Row = Row(status: Status, processedAt: int)

  type Table = map<string, Row>

  /** A unit of work: the newest claimed message of a thread, and all the ids claimed with it. */
  datatype Item = Item(message: Message, ids: seq<string>)

  /** Fifteen minutes, in seconds. */
  const STALE_AFTER := 900

  function Decimal(n: nat): string {
    if n < 10 then [(n as char) + '0'] else Decimal(n / 10) + [((n % 10) as char) + '0']
  }

  /** The id a message is processed under. */
  function Key(m: Message): string {
    if OrNone(m.remoteId).Some? then m.remoteId.value
    else if OrNone(m.internetId).Some? then m.internetId.value
    else Decimal(m.uid)
  }

  function Keys(ms: seq<Message>): (ids: seq<string>)
    ensures |ids| == |ms|
  {
    seq(|ms|, i requires 0 <= i < |ms| => Key(ms[i]))
  }

  predicate ByUid(ms: seq<Message>) {
    forall i, j :: 0 <= i < j < |ms| ==> ms[i].uid < ms[j].uid
  }

  predicate DistinctKeys(ms: seq<Message>) {
    forall i, j :: 0 <= i < j < |ms| ==> Key(ms[i]) != Key(ms[j])
  }

  // ----- the transactions -----

  predicate Stale(row: Row, now: int) {
    row.status == Running && row.processedAt < now - STALE_AFTER
  }

  function RecoverStale(t: Table, now: int): Table {
    map id | id in t :: if Stale(t[id], now) then Row(Failed, now) else t[id]
  }

  /** Never seen, or failed. */
  predicate Pending(t: Table, id: string) {
    id !in t || t[id].status == Failed
  }

  /** Pending, or claimed and not yet settled. */
  predicate Unsettled(t: Table, id: string) {
    id !in t || t[id].status in {Failed, Running}
  }

  function PendingCount(ms: seq<Message>, t: Table): nat {
    Count(ms, (m: Message) => Unsettled(t, Key(m)))
  }

  function ClaimAll(t: Table, ids: seq<string>, now: int): Table {
    if ids == [] then t else ClaimAll(t, ids[..|ids| - 1], now)[ids[|ids| - 1] := Row(Running, now)]
  }

  function Clamp(limit: int): nat {
    if limit < 1 then 1 else if limit > 200 then 200 else limit
  }

  function FirstOf<T>(xs: seq<T>, limit: nat): seq<T> {
    if |xs| <= limit then xs else xs[..limit]
  }

  /** The rows with this status (None: never seen), newest first. */
  function NewestWith(ms: seq<Message>, t: Table, status: Option<Status>): seq<Message> {
    if ms == [] then []
    else
      var m := ms[|ms| - 1];
      var older := NewestWith(ms[..|ms| - 1], t, status);
      if (if Key(m) in t then Some(t[Key(m)].status) else None) == status then [m] + older else older
  }

  function ListedMessages(ms: seq<Message>, t: Table, limit: int): seq<Message> {
    FirstOf(NewestWith(ms, t, None) + NewestWith(ms, t, Some(Failed)), Clamp(limit))
  }

  function ClaimPending(ms: seq<Message>, t: Table, limit: int, now: int): (seq<Message>, Table) {
    var recovered := RecoverStale(t, now);
    var rows := ListedMessages(ms, recovered, limit);
    (rows, ClaimAll(recovered, Keys(rows), now))
  }

  /** The pending messages, of one thread or of all, oldest first. */
  function PendingIn(ms: seq<Message>, t: Table, thread: Option<string>): seq<Message> {
    if ms == [] then []
    else
      var m := ms[|ms| - 1];
      var older := PendingIn(ms[..|ms| - 1], t, thread);
      if Pending(t, Key(m)) && (thread == None || thread == Some(m.thread)) then older + [m] else older
  }

  function Threads(ms: seq<Message>): seq<string> {
    if ms == [] then []
    else
      var before := Threads(ms[..|ms| - 1]);
      if ms[|ms| - 1].thread in before then before else before + [ms[|ms| - 1].thread]
  }

  function MaxUid(ms: seq<Message>, thread: string): int {
    if ms == [] then -1
    else
      var before := MaxUid(ms[..|ms| - 1], thread);
      if ms[|ms| - 1].thread == thread && ms[|ms| - 1].uid > before then ms[|ms| - 1].uid else before
  }

  function NewestFirst(pending: seq<Message>): string -> int {
    thread => -MaxUid(pending, thread)
  }

  /** Threads grouped and ordered by their highest pending uid. */
  function ChosenThreads(ms: seq<Message>, t: Table, limit: int): seq<string> {
    var pending := PendingIn(ms, t, None);
    FirstOf(SortBy(NewestFirst(pending), Threads(pending)), Clamp(limit))
  }

  function ClaimThreads(ms: seq<Message>, t: Table, threads: seq<string>, now: int): (seq<Item>, Table) {
    if threads == [] then ([], t)
    else
      var (items, t') := ClaimThreads(ms, t, threads[..|threads| - 1], now);
      var rows := PendingIn(ms, t', Some(threads[|threads| - 1]));
      if rows == [] then (items, t')
      else (items + [Item(rows[|rows| - 1], Keys(rows))], ClaimAll(t', Keys(rows), now))
  }

  function ClaimPendingThreads(ms: seq<Message>, t: Table, limit: int, now: int): (seq<Item>, Table) {
    var recovered := RecoverStale(t, now);
    ClaimThreads(ms, recovered, ChosenThreads(ms, recovered, limit), now)
  }

  // ----- the store and the queue -----

  class ProcessingStore {
    var messages: seq<Message>
    var live: Table
    var shadow: Table

    constructor (messages: seq<Message>)
      ensures this.messages == messages && live == map[] && shadow == map[]
    {
      this.messages, live, shadow := messages, map[], map[];
    }

    method RecordAgentProcessing(id: string, status: Status, now: int)
      modifies `live
      ensures live == old(live)[id := Row(status, now)]
    {
      live := live[id := Row(status, now)];
    }

    method RecordShadowProcessing(id: string, status: Status, now: int)
      modifies `shadow
      ensures shadow == old(shadow)[id := Row(status, now)]
    {
      shadow := shadow[id := Row(status, now)];
    }
  }

  lemma ClaimNext(t: Table, ids: seq<string>, i: nat, now: int)
    requires i < |ids|
    ensures ClaimAll(t, ids[..i + 1], now) == ClaimAll(t, ids[..i], now)[ids[i] := Row(Running, now)]
  {
    assert ids[..i + 1][..i] == ids[..i];
  }

  class AgentWorkQueue {
    const store: ProcessingStore
    const onShadow: bool

    constructor (store: ProcessingStore, onShadow: bool)
      ensures this.store == store && this.onShadow == onShadow
    {
      this.store, this.onShadow := store, onShadow;
    }

    /** The processing table this queue claims in. */
    function Rows(): Table
      reads store
    {
      if onShadow then store.shadow else store.live
    }

    /** The processing table of the other queue. */
    function OtherRows(): Table
      reads store
    {
      if onShadow then store.live else store.shadow
    }

    method Replace(t: Table)
      modifies store
      ensures Rows() == t && OtherRows() == old(OtherRows()) && store.messages == old(store.messages)
    {
      if onShadow {
        store.shadow := t;
      } else {
        store.live := t;
      }
    }

    method Claim(ids: seq<string>, now: int)
      modifies store
      ensures Rows() == ClaimAll(old(Rows()), ids, now)
      ensures OtherRows() == old(OtherRows()) && store.messages == old(store.messages)
    {
      for i := 0 to |ids|
        invariant Rows() == ClaimAll(old(Rows()), ids[..i], now)
        invariant OtherRows() == old(OtherRows()) && store.messages == old(store.messages)
      {
        ClaimNext(old(Rows()), ids, i, now);
        Replace(Rows()[ids[i] := Row(Running, now)]);
      }
      assert ids[..|ids|] == ids;
    }

    method ListPending(limit: int, now: int) returns (selected: seq<Message>)
      modifies store
      ensures (selected, Rows()) == ClaimPending(store.messages, old(Rows()), limit, now)
      ensures OtherRows() == old(OtherRows()) && store.messages == old(store.messages)
    {
      Replace(RecoverStale(Rows(), now));
      selected := ListedMessages(store.messages, Rows(), limit);
      Claim(Keys(selected), now);
    }

    /** Claims whole threads, one after the other. */
    method ListPendingThreads(limit: int, now: int) returns (selected: seq<Item>)
      modifies store
      ensures (selected, Rows()) == ClaimPendingThreads(store.messages, old(Rows()), limit, now)
      ensures OtherRows() == old(OtherRows()) && store.messages == old(store.messages)
    {
      Replace(RecoverStale(Rows(), now));
      ghost var recovered := Rows();
      selected := [];
      var threads := ChosenThreads(store.messages, Rows(), limit);
      for i := 0 to |threads|
        invariant (selected, Rows()) == ClaimThreads(store.messages, recovered, threads[..i], now)
        invariant OtherRows() == old(OtherRows()) && store.messages == old(store.messages)
      {
        assert threads[..i + 1][..i] == threads[..i];
        var rows := PendingIn(store.messages, Rows(), Some(threads[i]));
        if rows != [] {
          Claim(Keys(rows), now);
          selected := selected + [Item(rows[|rows| - 1], Keys(rows))];
        }
      }
      assert threads[..|threads|] == threads;
    }
  }

  // ----- the cycle -----

  /** How the analysis of one item ended. */
  datatype Verdict = Ignored | Accepted | Doubtful | Raised

  function StatusOf(v: Verdict): Status {
    match v
    case Ignored => IgnoredRule
    case Accepted => Processed
    case Doubtful => BelowConfidence
    case Raised => Failed
  }

  function RecordAll(t: Table, ids: seq<string>, status: Status, now: int): Table {
    if ids == [] then t else RecordAll(t, ids[..|ids| - 1], status, now)[ids[|ids| - 1] := Row(status, now)]
  }

  function SettleAll(t: Table, items: seq<Item>, verdicts: nat -> Verdict, now: int): Table {
    if items == [] then t
    else
      var last := |items| - 1;
      RecordAll(SettleAll(t, items[..last], verdicts, now), items[last].ids, StatusOf(verdicts(last)), now)
  }

  predicate SameRow(t: Table, t': Table, id: string) {
    (id in t <==> id in t') && (id in t ==> t'[id] == t[id])
  }

  predicate RowIs(t: Table, id: string, row: Row) {
    id in t && t[id] == row
  }

  lemma {:induction false} RecordAllAt(t: Table, ids: seq<string>, status: Status, now: int, id: string)
    ensures if id in ids then RowIs(RecordAll(t, ids, status, now), id, Row(status, now))
            else SameRow(t, RecordAll(t, ids, status, now), id)
  {
    if ids != [] {
      assert ids == ids[..|ids| - 1] + [ids[|ids| - 1]];
      RecordAllAt(t, ids[..|ids| - 1], status, now, id);
    }
  }

  /** Item `i` is the last one that lists the id. */
  predicate LastListed(items: seq<Item>, i: int, id: string) {
    0 <= i < |items| && id in items[i].ids && forall j :: i < j < |items| ==> id !in items[j].ids
  }

  /** The last item that lists an id decides its row. */
  lemma {:induction false} LastItemDecides(t: Table, items: seq<Item>, verdicts: nat -> Verdict, now: int, i: nat, id: string)
    requires LastListed(items, i, id)
    ensures RowIs(SettleAll(t, items, verdicts, now), id, Row(StatusOf(verdicts(i)), now))
  {
    var last := |items| - 1;
    var before := SettleAll(t, items[..last], verdicts, now);
    RecordAllAt(before, items[last].ids, StatusOf(verdicts(last)), now, id);
    if i < last {
      LastItemDecides(t, items[..last], verdicts, now, i, id);
    }
  }

  function Tally(verdicts: nat -> Verdict, n: nat, v: Verdict): nat {
    if n == 0 then 0 else Tally(verdicts, n - 1, v) + if verdicts(n - 1) == v then 1 else 0
  }

  function Singles(ms: seq<Message>): (items: seq<Item>)
    ensures |items| == |ms|
  {
    seq(|ms|, i requires 0 <= i < |ms| => Item(ms[i], [Key(ms[i])]))
  }

  /** What a cycle works on, and the table its claims leave. */
  function Listing(ms: seq<Message>, t: Table, coalescing: bool, limit: int, now: int): (seq<Item>, Table) {
    if coalescing then ClaimPendingThreads(ms, t, limit, now)
    else
      var (rows, t') := ClaimPending(ms, t, limit, now);
      (Singles(rows), t')
  }

  method Record(store: ProcessingStore, ids: seq<string>, status: Status, now: int)
    modifies store`live
    ensures store.live == RecordAll(old(store.live), ids, status, now)
  {
    for i := 0 to |ids|
      invariant store.live == RecordAll(old(store.live), ids[..i], status, now)
    {
      assert ids[..i + 1][..i] == ids[..i];
      store.RecordAgentProcessing(ids[i], status, now);
    }
    assert ids[..|ids|] == ids;
  }

  /** The loop over the claimed items. A failed analysis leaves its messages failed. */
  method SettleItems(store: ProcessingStore, items: seq<Item>, now: int, verdicts: nat -> Verdict)
    returns (processed: nat, ignored: nat, belowConfidence: nat, errors: nat)
    modifies store`live
    ensures store.live == SettleAll(old(store.live), items, verdicts, now)
    ensures forall i: nat, id :: LastListed(items, i, id) ==>
              id in store.live && store.live[id] == Row(
                match verdicts(i)
                case Ignored => IgnoredRule
                case Accepted => Processed
                case Doubtful => BelowConfidence
                case Raised => Failed, now)
    ensures processed + ignored + errors == |items|
    ensures ignored == Tally(verdicts, |items|, Ignored) && errors == Tally(verdicts, |items|, Raised)
    ensures belowConfidence == Tally(verdicts, |items|, Doubtful) && belowConfidence <= processed
  {
    processed, ignored, belowConfidence, errors := 0, 0, 0, 0;
    for i := 0 to |items|
      invariant store.live == SettleAll(old(store.live), items[..i], verdicts, now)
      invariant processed + ignored + errors == i && belowConfidence <= processed
      invariant ignored == Tally(verdicts, i, Ignored) && errors == Tally(verdicts, i, Raised)
      invariant belowConfidence == Tally(verdicts, i, Doubtful)
    {
      assert items[..i + 1][..i] == items[..i];
      if verdicts(i) == Ignored {
        Record(store, items[i].ids, IgnoredRule, now);
        ignored := ignored + 1;
        continue;
      }
      if verdicts(i) == Raised {
        errors := errors + 1;
        Record(store, items[i].ids, Failed, now);
      } else {
        var status := Processed;
        if verdicts(i) == Doubtful {
          belowConfidence := belowConfidence + 1;
          status := BelowConfidence;
        }
        Record(store, items[i].ids, status, now);
        processed := processed + 1;
      }
    }
    assert items[..|items|] == items;
    hide SettleAll, Tally, LastListed;
    forall i: nat, id | LastListed(items, i, id)
      ensures RowIs(store.live, id, Row(StatusOf(verdicts(i)), now))
    {
      LastItemDecides(old(store.live), items, verdicts, now, i, id);
    }
  }

  /** One live cycle: claims, analyses and settles. */
  method RunMailbox(queue: AgentWorkQueue, coalescing: bool, limit: int, claimedAt: int, now: int, verdicts: nat -> Verdict)
    returns (items: seq<Item>, processed: nat, ignored: nat, belowConfidence: nat, errors: nat)
    requires !queue.onShadow
    modifies queue.store
    ensures var ms := old(queue.store.messages);
            var (listed, t) := Listing(ms, old(queue.store.live), coalescing, limit, claimedAt);
            items == listed && queue.store.live == SettleAll(t, items, verdicts, now)
    ensures queue.store.shadow == old(queue.store.shadow) && queue.store.messages == old(queue.store.messages)
    ensures processed + ignored + errors == |items|
    ensures ignored == Tally(verdicts, |items|, Ignored) && errors == Tally(verdicts, |items|, Raised)
    ensures belowConfidence == Tally(verdicts, |items|, Doubtful) && belowConfidence <= processed
  {
    if coalescing {
      items := queue.ListPendingThreads(limit, claimedAt);
    } else {
      var rows := queue.ListPending(limit, claimedAt);
      items := Singles(rows);
    }
    processed, ignored, belowConfidence, errors := SettleItems(queue.store, items, now, verdicts);
  }

  /** In shadow mode an item is processed unless its simulation raises. */
  function ShadowVerdicts(raises: nat -> bool): nat -> Verdict {
    (i: nat) => if raises(i) then Raised else Accepted
  }

  method RecordShadow(store: ProcessingStore, ids: seq<string>, status: Status, now: int)
    modifies store`shadow
    ensures store.shadow == RecordAll(old(store.shadow), ids, status, now)
  {
    for i := 0 to |ids|
      invariant store.shadow == RecordAll(old(store.shadow), ids[..i], status, now)
    {
      assert ids[..i + 1][..i] == ids[..i];
      store.RecordShadowProcessing(ids[i], status, now);
    }
    assert ids[..|ids|] == ids;
  }

  method SettleShadow(store: ProcessingStore, items: seq<Item>, now: int, raises: nat -> bool) returns (errors: nat)
    modifies store`shadow
    ensures store.shadow == SettleAll(old(store.shadow), items, ShadowVerdicts(raises), now)
    ensures forall i: nat, id :: LastListed(items, i, id) ==>
              id in store.shadow && store.shadow[id] == Row(if raises(i) then Failed else Processed, now)
    ensures errors == Tally(ShadowVerdicts(raises), |items|, Raised) && errors <= |items|
  {
    errors := 0;
    for i := 0 to |items|
      invariant store.shadow == SettleAll(old(store.shadow), items[..i], ShadowVerdicts(raises), now)
      invariant errors == Tally(ShadowVerdicts(raises), i, Raised) && errors <= i
    {
      assert items[..i + 1][..i] == items[..i];
      if raises(i) {
        errors := errors + 1;
        RecordShadow(store, items[i].ids, Failed, now);
      } else {
        RecordShadow(store, items[i].ids, Processed, now);
      }
    }
    assert items[..|items|] == items;
    forall i: nat, id | LastListed(items, i, id)
      ensures RowIs(store.shadow, id, Row(StatusOf(ShadowVerdicts(raises)(i)), now))
    {
      LastItemDecides(old(store.shadow), items, ShadowVerdicts(raises), now, i, id);
    }
  }

  /** One shadow cycle: the same claims and settlements, in the shadow table only. */
  method RunShadowMailbox(queue: AgentWorkQueue, coalescing: bool, limit: int, claimedAt: int, now: int, raises: nat -> bool)
    returns (items: seq<Item>, errors: nat)
    requires queue.onShadow
    modifies queue.store
    ensures var (listed, t) := Listing(old(queue.store.messages), old(queue.store.shadow), coalescing, limit, claimedAt);
            items == listed && queue.store.shadow == SettleAll(t, items, ShadowVerdicts(raises), now)
    ensures queue.store.live == old(queue.store.live) && queue.store.messages == old(queue.store.messages)
    ensures errors == Tally(ShadowVerdicts(raises), |items|, Raised) && errors <= |items|
  {
    if coalescing {
      items := queue.ListPendingThreads(limit, claimedAt);
    } else {
      var rows := queue.ListPending(limit, claimedAt);
      items := Singles(rows);
    }
    errors := SettleShadow(queue.store, items, now, raises);
  }
}
