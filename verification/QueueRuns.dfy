/** Interleaved claimers of one processing table: when a message can be handed out again. */
module QueueRuns {
  import opened Common
  import opened StableSort
  import opened WorkQueue
  import opened QueueProperties

  datatype State = State(ms: seq<Message>, t: Table)

  /** One transaction: a claim of messages or threads, a recorded result, or a sync that
      replaces the messages. */
  datatype QueueOp =
    | Claim(coalescing: bool, limit: int, now: int)
    | Settle(id: string, verdict: Verdict, now: int)
    | Sync(ms: seq<Message>)

  function Step(s: State, op: QueueOp): State {
    match op
    case Claim(coalescing, limit, now) => s.(t := Listing(s.ms, s.t, coalescing, limit, now).1)
    case Settle(id, verdict, now) => s.(t := s.t[id := Row(StatusOf(verdict), now)])
    case Sync(ms) => s.(ms := ms)
  }

  function Run(s: State, ops: seq<QueueOp>): State {
    if ops == [] then s else Step(Run(s, ops[..|ops| - 1]), ops[|ops| - 1])
  }

  predicate HandsOut(s: State, op: QueueOp, id: string) {
    op.Claim? && InItems(Listing(s.ms, s.t, op.coalescing, op.limit, op.now).0, id)
  }

  /** The row becomes 'error': a recorded failure, or recovery of a claim older than fifteen minutes. */
  predicate Fails(s: State, op: QueueOp, id: string) {
    match op
    case Claim(_, _, now) => id in s.t && s.t[id].status == Running && s.t[id].processedAt < now - 15 * 60
    case Settle(id', verdict, _) => id' == id && verdict == Raised
    case Sync(_) => false
  }

  predicate HandsOutAt(s: State, ops: seq<QueueOp>, i: int, id: string) {
    0 <= i < |ops| && HandsOut(Run(s, ops[..i]), ops[i], id)
  }

  predicate FailsAt(s: State, ops: seq<QueueOp>, i: int, id: string) {
    0 <= i < |ops| && Fails(Run(s, ops[..i]), ops[i], id)
  }

  /** Claimed or settled. */
  predicate Taken(t: Table, id: string) {
    id in t && t[id].status != Failed
  }

  lemma StepKeepsTaken(s: State, op: QueueOp, id: string)
    requires Taken(s.t, id) && !Fails(s, op, id)
    ensures Taken(Step(s, op).t, id) && !HandsOut(s, op, id)
  {
    if op.Claim? {
      ListingHandsOut(s.ms, s.t, op.coalescing, op.limit, op.now, id);
      hide Listing;
    }
  }

  lemma RunNext(s: State, ops: seq<QueueOp>, i: nat)
    requires i < |ops|
    ensures Run(s, ops[..i + 1]) == Step(Run(s, ops[..i]), ops[i])
  {
    assert ops[..i + 1][..i] == ops[..i];
  }

  lemma {:induction false} TakenUntilFailure(s: State, ops: seq<QueueOp>, i: nat, j: nat, id: string)
    requires i <= j <= |ops| && Taken(Run(s, ops[..i]).t, id)
    requires forall m :: i <= m < j ==> !FailsAt(s, ops, m, id)
    ensures Taken(Run(s, ops[..j]).t, id)
  {
    hide Step, Fails, Taken;
    if i < j {
      TakenUntilFailure(s, ops, i, j - 1, id);
      assert !FailsAt(s, ops, j - 1, id);
      RunNext(s, ops, j - 1);
      StepKeepsTaken(Run(s, ops[..j - 1]), ops[j - 1], id);
    }
  }

  /** A message that was handed out is handed out again only if its row became 'error' in
      between; recovery by the second claim itself counts. */
  lemma HandedOutAgainOnlyAfterFailure(s: State, ops: seq<QueueOp>, i: nat, j: nat, id: string)
    requires i < j && HandsOutAt(s, ops, i, id) && HandsOutAt(s, ops, j, id)
    ensures exists m :: i < m <= j && FailsAt(s, ops, m, id)
  {
    var before := Run(s, ops[..i]);
    ListingHandsOut(before.ms, before.t, ops[i].coalescing, ops[i].limit, ops[i].now, id);
    RunNext(s, ops, i);
    if forall m :: i < m < j ==> !FailsAt(s, ops, m, id) {
      TakenUntilFailure(s, ops, i + 1, j, id);
      if !Fails(Run(s, ops[..j]), ops[j], id) {
        StepKeepsTaken(Run(s, ops[..j]), ops[j], id);
      }
      assert FailsAt(s, ops, j, id);
    }
  }

  predicate FailureRecordedAt(ops: seq<QueueOp>, m: int, id: string) {
    0 <= m < |ops| && ops[m].Settle? && ops[m].id == id && ops[m].verdict == Raised
  }

  lemma {:induction false} SettledUntilFailure(s: State, ops: seq<QueueOp>, i: nat, j: nat, id: string)
    requires i <= j <= |ops| && IsSettled(Run(s, ops[..i]).t, id)
    requires forall m :: i <= m < j ==> !FailureRecordedAt(ops, m, id)
    ensures IsSettled(Run(s, ops[..j]).t, id)
  {
    hide Step, IsSettled, HandsOut;
    if i < j {
      SettledUntilFailure(s, ops, i, j - 1, id);
      assert !FailureRecordedAt(ops, j - 1, id);
      RunNext(s, ops, j - 1);
      StepKeepsSettled(Run(s, ops[..j - 1]), ops[j - 1], id);
    }
  }

  lemma StepKeepsSettled(s: State, op: QueueOp, id: string)
    requires IsSettled(s.t, id) && !(op.Settle? && op.id == id && op.verdict == Raised)
    ensures IsSettled(Step(s, op).t, id) && !HandsOut(s, op, id)
  {
    if op.Claim? {
      ListingHandsOut(s.ms, s.t, op.coalescing, op.limit, op.now, id);
      hide Listing;
    }
  }

  /** A settled message is never handed out again unless somebody records a failure for it:
      no claim and no recovery reopens it. */
  lemma SettledIsHandedOutOnlyAfterRecordedFailure(s: State, ops: seq<QueueOp>, i: nat, j: nat, id: string)
    requires i <= j < |ops| && IsSettled(Run(s, ops[..i]).t, id) && HandsOutAt(s, ops, j, id)
    ensures exists m :: i <= m < j && FailureRecordedAt(ops, m, id)
  {
    if forall m :: i <= m < j ==> !FailureRecordedAt(ops, m, id) {
      SettledUntilFailure(s, ops, i, j, id);
      StepKeepsSettled(Run(s, ops[..j]), ops[j], id);
    }
  }

  // ----- a failed message is tried again -----

  /** Right after a failure the row is open again, or the very claim that recovered it has
      handed it out. */
  lemma FailureReopens(s: State, op: QueueOp, id: string)
    requires Fails(s, op, id)
    ensures var t := Step(s, op).t;
            && id in t && t[id].processedAt == op.now
            && if HandsOut(s, op, id) then t[id].status == Running else t[id].status == Failed && Pending(t, id)
  {
    if op.Claim? {
      ListingHandsOut(s.ms, s.t, op.coalescing, op.limit, op.now, id);
      hide Listing;
    }
  }

  /** Nothing but a hand-out or a recorded result closes an open row. */
  lemma StepKeepsOpen(s: State, op: QueueOp, id: string)
    requires Pending(s.t, id) && !HandsOut(s, op, id) && !(op.Settle? && op.id == id && op.verdict != Raised)
    ensures Pending(Step(s, op).t, id)
  {
    if op.Claim? {
      ListingHandsOut(s.ms, s.t, op.coalescing, op.limit, op.now, id);
      hide Listing;
    }
  }

  predicate ResultRecordedAt(ops: seq<QueueOp>, m: int, id: string) {
    0 <= m < |ops| && ops[m].Settle? && ops[m].id == id && ops[m].verdict != Raised
  }

  lemma {:induction false} OpenUntilHandedOut(s: State, ops: seq<QueueOp>, i: nat, j: nat, id: string)
    requires i <= j <= |ops| && Pending(Run(s, ops[..i]).t, id)
    requires forall m :: i <= m < j ==> !HandsOutAt(s, ops, m, id) && !ResultRecordedAt(ops, m, id)
    ensures Pending(Run(s, ops[..j]).t, id)
  {
    hide Step, HandsOut, Pending;
    if i < j {
      OpenUntilHandedOut(s, ops, i, j - 1, id);
      assert !HandsOutAt(s, ops, j - 1, id) && !ResultRecordedAt(ops, j - 1, id);
      RunNext(s, ops, j - 1);
      StepKeepsOpen(Run(s, ops[..j - 1]), ops[j - 1], id);
    }
  }

  /** A claim of messages passes over an open message only when messages that come before it
      fill the limit: never seen ones, or newer ones. */
  ghost predicate CrowdedOut(s: State, op: QueueOp, m: Message)
    requires op.Claim?
  {
    var before := RecoverStale(s.t, op.now);
    var most := if op.limit < 1 then 1 else if op.limit > 200 then 200 else op.limit;
    var items := Listing(s.ms, s.t, op.coalescing, op.limit, op.now).0;
    && |items| == most
    && forall i :: 0 <= i < |items| ==>
         if op.coalescing then MaxUid(PendingIn(s.ms, before, None), items[i].message.thread) > m.uid
         else Before(before, items[i].message, m)
  }

  lemma MessageClaimTakes(s: State, op: QueueOp, m: Message)
    requires op.Claim? && !op.coalescing && ByUid(s.ms) && m in s.ms && Pending(RecoverStale(s.t, op.now), Key(m))
    ensures HandsOut(s, op, Key(m)) || CrowdedOut(s, op, m)
  {
    var before := RecoverStale(s.t, op.now);
    var rows := ListedMessages(s.ms, before, op.limit);
    ListedMessagesAreFirst(s.ms, before, op.limit);
    hide ListedMessages, Before, Pending;
    if m in rows {
      var i :| 0 <= i < |rows| && rows[i] == m;
      assert Key(m) in Singles(rows)[i].ids;
    }
  }

  lemma UnchosenThread(ms: seq<Message>, t: Table, limit: int, m: Message)
    requires ByUid(ms) && m in ms && Pending(t, Key(m)) && m.thread !in ChosenThreads(ms, t, limit)
    ensures var chosen := ChosenThreads(ms, t, limit);
            && |chosen| == (if limit < 1 then 1 else if limit > 200 then 200 else limit)
            && forall i :: 0 <= i < |chosen| ==> MaxUid(PendingIn(ms, t, None), chosen[i]) > m.uid
  {
    var pending := PendingIn(ms, t, None);
    ChosenThreadsAreNewest(ms, t, limit);
    PendingInMembers(ms, t, None, m);
    ThreadsMembers(pending, m.thread);
    MaxUidIsMaximum(pending, m.thread);
    hide ChosenThreads, PendingIn, MaxUid, Threads, Pending, ByUid, Key;
    FewerChosen(ChosenThreads(ms, t, limit), Threads(pending), m.thread);
  }

  lemma ItemsShowTheirThreads(ms: seq<Message>, t: Table, limit: int, now: int)
    requires ByUid(ms) && DistinctKeys(ms)
    ensures var chosen := ChosenThreads(ms, RecoverStale(t, now), limit);
            var items := ClaimPendingThreads(ms, t, limit, now).0;
            |items| == |chosen| && forall i :: 0 <= i < |items| ==> items[i].message.thread == chosen[i]
  {
    var before := RecoverStale(t, now);
    var chosen := ChosenThreads(ms, before, limit);
    var items := ClaimPendingThreads(ms, t, limit, now).0;
    ItemsCoverTheirThreads(ms, t, limit, now);
    hide ClaimPendingThreads, ChosenThreads, PendingIn, ClaimedExactly, Keys, ByUid, DistinctKeys;
    forall i | 0 <= i < |items|
      ensures items[i].message.thread == chosen[i]
    {
      var rows := PendingIn(ms, before, Some(chosen[i]));
      assert IsItemOf(items[i], rows);
      PendingInMembers(ms, before, Some(chosen[i]), rows[|rows| - 1]);
    }
  }

  lemma ThreadClaimTakes(s: State, op: QueueOp, m: Message)
    requires op.Claim? && op.coalescing && ByUid(s.ms) && DistinctKeys(s.ms)
    requires m in s.ms && Pending(RecoverStale(s.t, op.now), Key(m))
    ensures HandsOut(s, op, Key(m)) || CrowdedOut(s, op, m)
  {
    var before := RecoverStale(s.t, op.now);
    var chosen := ChosenThreads(s.ms, before, op.limit);
    var items := ClaimPendingThreads(s.ms, s.t, op.limit, op.now).0;
    IdsPartitionClaims(s.ms, s.t, op.limit, op.now, m);
    ItemsShowTheirThreads(s.ms, s.t, op.limit, op.now);
    hide ClaimPendingThreads, ChosenThreads, PendingIn, MaxUid, Pending, ByUid, DistinctKeys, Key;
    if m.thread in chosen {
      var i :| 0 <= i < |chosen| && chosen[i] == m.thread;
      assert Key(m) in items[i].ids;
    } else {
      UnchosenThread(s.ms, before, op.limit, m);
    }
  }

  /** A message that was never seen is handed out by every claim that others do not fill. */
  lemma NewMessageIsTaken(s: State, op: QueueOp, m: Message)
    requires op.Claim? && ByUid(s.ms) && DistinctKeys(s.ms) && m in s.ms && Key(m) !in s.t
    ensures HandsOut(s, op, Key(m)) || CrowdedOut(s, op, m)
  {
    if op.coalescing {
      ThreadClaimTakes(s, op, m);
    } else {
      MessageClaimTakes(s, op, m);
    }
  }

  /** A message whose failure was recorded is handed out by the next claim, unless its result
      is recorded in between, it is gone from the mailbox, or others fill the limit. */
  lemma FailedIsTriedAgain(s: State, ops: seq<QueueOp>, i: nat, j: nat, m: Message)
    requires i < j < |ops| && FailureRecordedAt(ops, i, Key(m)) && ops[j].Claim?
    requires forall k :: i < k < j ==> !HandsOutAt(s, ops, k, Key(m)) && !ResultRecordedAt(ops, k, Key(m))
    requires var now := Run(s, ops[..j]); ByUid(now.ms) && DistinctKeys(now.ms) && m in now.ms
    ensures HandsOutAt(s, ops, j, Key(m)) || CrowdedOut(Run(s, ops[..j]), ops[j], m)
  {
    FailureReopens(Run(s, ops[..i]), ops[i], Key(m));
    RunNext(s, ops, i);
    OpenUntilHandedOut(s, ops, i + 1, j, Key(m));
    hide Run, Listing, Key;
    var here := Run(s, ops[..j]);
    assert Pending(RecoverStale(here.t, ops[j].now), Key(m));
    if ops[j].coalescing {
      ThreadClaimTakes(here, ops[j], m);
    } else {
      MessageClaimTakes(here, ops[j], m);
    }
  }
}
