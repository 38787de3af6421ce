/** What the work queue promises: the threads it picks, the ids it claims, what it leaves. */
module QueueProperties {
  import opened Common
  import opened StableSort
  import opened WorkQueue

  lemma FirstOfElements<T>(xs: seq<T>, limit: nat, x: T)
    ensures x in FirstOf(xs, limit) ==> x in xs
    ensures x in xs && x !in FirstOf(xs, limit) ==>
              |FirstOf(xs, limit)| == limit && exists j :: limit <= j < |xs| && xs[j] == x
  {
  }

  // ----- pending messages -----

  predicate Wanted(t: Table, thread: Option<string>, m: Message) {
    Pending(t, Key(m)) && (thread == None || thread == Some(m.thread))
  }

  lemma {:induction false} PendingInMembers(ms: seq<Message>, t: Table, thread: Option<string>, m: Message)
    ensures m in PendingIn(ms, t, thread) <==> m in ms && Wanted(t, thread, m)
  {
    if ms != [] {
      assert ms == ms[..|ms| - 1] + [ms[|ms| - 1]];
      PendingInMembers(ms[..|ms| - 1], t, thread, m);
    }
  }

  lemma {:induction false} PendingInByUid(ms: seq<Message>, t: Table, thread: Option<string>)
    requires ByUid(ms)
    ensures ByUid(PendingIn(ms, t, thread))
  {
    if ms != [] {
      var init, last := ms[..|ms| - 1], ms[|ms| - 1];
      PendingInByUid(init, t, thread);
      var older := PendingIn(init, t, thread);
      forall i | 0 <= i < |older|
        ensures older[i].uid < last.uid
      {
        PendingInMembers(init, t, thread, older[i]);
      }
    }
  }

  lemma {:induction false} SamePending(ms: seq<Message>, t: Table, t': Table, thread: Option<string>)
    requires forall m :: m in ms && (thread == None || thread == Some(m.thread)) ==> Pending(t, Key(m)) == Pending(t', Key(m))
    ensures PendingIn(ms, t, thread) == PendingIn(ms, t', thread)
  {
    if ms != [] {
      assert ms[|ms| - 1] in ms;
      SamePending(ms[..|ms| - 1], t, t', thread);
    }
  }

  lemma SameKeySameMessage(ms: seq<Message>, m: Message, m': Message)
    requires DistinctKeys(ms) && m in ms && m' in ms && Key(m) == Key(m')
    ensures m == m'
  {
  }

  lemma KeysMembers(ms: seq<Message>, id: string)
    ensures id in Keys(ms) <==> exists m :: m in ms && Key(m) == id
  {
    if id in Keys(ms) {
      var i :| 0 <= i < |Keys(ms)| && Keys(ms)[i] == id;
      assert ms[i] in ms;
    }
    if m :| m in ms && Key(m) == id {
      var i :| 0 <= i < |ms| && ms[i] == m;
      assert Keys(ms)[i] == id;
    }
  }

  // ----- threads -----

  lemma {:induction false} ThreadsMembers(ms: seq<Message>, thread: string)
    ensures NoDuplicates(Threads(ms))
    ensures thread in Threads(ms) <==> exists m :: m in ms && m.thread == thread
  {
    if ms != [] {
      var init, last := ms[..|ms| - 1], ms[|ms| - 1];
      assert ms == init + [last];
      ThreadsMembers(init, thread);
      assert last in ms;
    }
  }

  lemma {:induction false} MaxUidIsMaximum(ms: seq<Message>, thread: string)
    ensures forall m :: m in ms && m.thread == thread ==> m.uid <= MaxUid(ms, thread)
    ensures MaxUid(ms, thread) == -1 || exists m :: m in ms && m.thread == thread && m.uid == MaxUid(ms, thread)
  {
    if ms != [] {
      var init, last := ms[..|ms| - 1], ms[|ms| - 1];
      assert ms == init + [last];
      MaxUidIsMaximum(init, thread);
      if last.thread == thread && last.uid > MaxUid(init, thread) {
        assert last in ms;
      }
    }
  }

  lemma SameUidSameMessage(ms: seq<Message>, m: Message, m': Message)
    requires ByUid(ms) && m in ms && m' in ms && m.uid == m'.uid
    ensures m == m'
  {
  }

  lemma DifferentThreadsDifferentMaxima(ms: seq<Message>, a: string, b: string)
    requires ByUid(ms) && a in Threads(ms) && b in Threads(ms) && a != b
    ensures MaxUid(ms, a) != MaxUid(ms, b)
  {
    ThreadsMembers(ms, a);
    ThreadsMembers(ms, b);
    MaxUidIsMaximum(ms, a);
    MaxUidIsMaximum(ms, b);
    var m :| m in ms && m.thread == a && m.uid == MaxUid(ms, a);
    var m' :| m' in ms && m'.thread == b && m'.uid == MaxUid(ms, b);
    if m.uid == m'.uid {
      SameUidSameMessage(ms, m, m');
    }
  }

  predicate Descending(pending: seq<Message>, threads: seq<string>) {
    forall i, j :: 0 <= i < j < |threads| ==> MaxUid(pending, threads[i]) > MaxUid(pending, threads[j])
  }

  /** Grouping and sorting lists every pending thread once, by descending highest uid. */
  lemma SortedThreads(pending: seq<Message>)
    requires ByUid(pending)
    ensures var sorted := SortBy(NewestFirst(pending), Threads(pending));
            && |sorted| == |Threads(pending)| && NoDuplicates(sorted)
            && (forall thread :: thread in sorted <==> thread in Threads(pending))
            && Descending(pending, sorted)
  {
    var key := NewestFirst(pending);
    var threads := Threads(pending);
    var sorted := SortBy(key, threads);
    SortByIsSort(key, threads);
    ThreadsMembers(pending, "");
    PermutationKeepsNoDuplicates(threads, sorted);
    assert |multiset(sorted)| == |multiset(threads)|;
    forall thread
      ensures thread in sorted <==> thread in threads
    {
      SortByKeepsElements(key, threads, thread);
    }
    forall i, j | 0 <= i < j < |sorted|
      ensures MaxUid(pending, sorted[i]) > MaxUid(pending, sorted[j])
    {
      assert key(sorted[i]) <= key(sorted[j]);
      DifferentThreadsDifferentMaxima(pending, sorted[i], sorted[j]);
    }
  }

  /** The chosen threads are the ones with the highest pending uids, as many as the limit
      allows, each once and in descending order. */
  lemma ChosenThreadsAreNewest(ms: seq<Message>, t: Table, limit: int)
    requires ByUid(ms)
    ensures var pending := PendingIn(ms, t, None);
            var chosen := ChosenThreads(ms, t, limit);
            var most := if limit < 1 then 1 else if limit > 200 then 200 else limit;
            && |chosen| == (if |Threads(pending)| <= most then |Threads(pending)| else most)
            && NoDuplicates(chosen)
            && (forall thread :: thread in chosen ==> thread in Threads(pending))
            && Descending(pending, chosen)
            && (forall i, other :: 0 <= i < |chosen| && other in Threads(pending) && other !in chosen ==>
                  MaxUid(pending, chosen[i]) > MaxUid(pending, other))
  {
    hide PendingIn, SortBy, Threads, MaxUid;
    var pending := PendingIn(ms, t, None);
    var sorted := SortBy(NewestFirst(pending), Threads(pending));
    PendingInByUid(ms, t, None);
    SortedThreads(pending);
    forall thread
      ensures thread in FirstOf(sorted, Clamp(limit)) ==> thread in sorted
      ensures thread in sorted && thread !in FirstOf(sorted, Clamp(limit)) ==>
                exists j :: Clamp(limit) <= j < |sorted| && sorted[j] == thread
    {
      FirstOfElements(sorted, Clamp(limit), thread);
    }
  }

  // ----- claims -----

  lemma {:induction false} ClaimAllAt(t: Table, ids: seq<string>, now: int, id: string)
    ensures if id in ids then RowIs(ClaimAll(t, ids, now), id, Row(Running, now)) else SameRow(t, ClaimAll(t, ids, now), id)
  {
    if ids != [] {
      assert ids == ids[..|ids| - 1] + [ids[|ids| - 1]];
      ClaimAllAt(t, ids[..|ids| - 1], now, id);
    }
  }

  /** `id` belongs to a pending message of one of these threads. */
  ghost predicate InThreads(ms: seq<Message>, t: Table, threads: seq<string>, id: string) {
    exists m :: m in ms && Pending(t, Key(m)) && m.thread in threads && Key(m) == id
  }

  ghost predicate ClaimedExactly(ms: seq<Message>, t: Table, threads: seq<string>, now: int, t': Table) {
    forall id :: if InThreads(ms, t, threads, id) then RowIs(t', id, Row(Running, now)) else SameRow(t, t', id)
  }

  /** The item of a thread: its newest pending message, and the ids of all of them. */
  predicate IsItemOf(item: Item, rows: seq<Message>) {
    rows != [] && item == Item(rows[|rows| - 1], Keys(rows))
  }

  predicate HasPending(ms: seq<Message>, t: Table, thread: string) {
    PendingIn(ms, t, Some(thread)) != []
  }

  /** The claims of earlier threads do not hide messages of this one. */
  lemma EarlierClaimsKeepThread(ms: seq<Message>, t: Table, threads: seq<string>, now: int, t': Table, thread: string)
    requires DistinctKeys(ms) && ClaimedExactly(ms, t, threads, now, t') && thread !in threads
    ensures PendingIn(ms, t', Some(thread)) == PendingIn(ms, t, Some(thread))
  {
    forall m | m in ms && m.thread == thread
      ensures Pending(t, Key(m)) == Pending(t', Key(m))
    {
      forall m' | m' in ms && Key(m') == Key(m)
        ensures m' == m
      {
        SameKeySameMessage(ms, m, m');
      }
      assert SameRow(t, t', Key(m));
    }
    SamePending(ms, t, t', Some(thread));
  }

  lemma OneMoreThread(ms: seq<Message>, t: Table, threads: seq<string>, now: int, t': Table, thread: string)
    requires ClaimedExactly(ms, t, threads, now, t')
    ensures ClaimedExactly(ms, t, threads + [thread], now, ClaimAll(t', Keys(PendingIn(ms, t, Some(thread))), now))
  {
    var rows := PendingIn(ms, t, Some(thread));
    var t'' := ClaimAll(t', Keys(rows), now);
    forall id
      ensures if InThreads(ms, t, threads + [thread], id) then RowIs(t'', id, Row(Running, now)) else SameRow(t, t'', id)
    {
      ClaimAllAt(t', Keys(rows), now, id);
      KeysMembers(rows, id);
      if id in Keys(rows) {
        var m :| m in rows && Key(m) == id;
        PendingInMembers(ms, t, Some(thread), m);
        assert InThreads(ms, t, threads + [thread], id);
      } else if InThreads(ms, t, threads + [thread], id) {
        var m :| m in ms && Pending(t, Key(m)) && m.thread in threads + [thread] && Key(m) == id;
        PendingInMembers(ms, t, Some(thread), m);
        assert InThreads(ms, t, threads, id);
      } else {
        assert !InThreads(ms, t, threads, id);
      }
    }
  }

  /** One item per thread, each covering its pending messages. */
  predicate ItemsMatch(ms: seq<Message>, t: Table, threads: seq<string>, items: seq<Item>) {
    |items| == |threads| && forall i :: 0 <= i < |items| ==> IsItemOf(items[i], PendingIn(ms, t, Some(threads[i])))
  }

  lemma OneMoreItem(ms: seq<Message>, t: Table, threads: seq<string>, items: seq<Item>, thread: string, item: Item)
    requires ItemsMatch(ms, t, threads, items) && IsItemOf(item, PendingIn(ms, t, Some(thread)))
    ensures ItemsMatch(ms, t, threads + [thread], items + [item])
  {
    hide IsItemOf, PendingIn;
  }

  lemma WithoutLast(threads: seq<string>)
    requires threads != [] && NoDuplicates(threads)
    ensures var init := threads[..|threads| - 1];
            NoDuplicates(init) && threads[|threads| - 1] !in init && threads == init + [threads[|threads| - 1]]
  {
  }

  lemma ClaimOneMore(ms: seq<Message>, t: Table, threads: seq<string>, now: int)
    requires threads != []
    ensures var (items, t') := ClaimThreads(ms, t, threads[..|threads| - 1], now);
            var rows := PendingIn(ms, t', Some(threads[|threads| - 1]));
            rows != [] ==>
              ClaimThreads(ms, t, threads, now) == (items + [Item(rows[|rows| - 1], Keys(rows))], ClaimAll(t', Keys(rows), now))
  {
  }

  lemma {:induction false} ClaimThreadsExactly(ms: seq<Message>, t: Table, threads: seq<string>, now: int)
    requires ByUid(ms) && DistinctKeys(ms) && NoDuplicates(threads)
    requires forall i :: 0 <= i < |threads| ==> HasPending(ms, t, threads[i])
    ensures var (items, t') := ClaimThreads(ms, t, threads, now);
            ClaimedExactly(ms, t, threads, now, t') && ItemsMatch(ms, t, threads, items)
  {
    if threads != [] {
      WithoutLast(threads);
      hide ClaimThreads, NoDuplicates, PendingIn, ClaimAll, ByUid, DistinctKeys, Keys, ClaimedExactly, ItemsMatch;
      var init, last := threads[..|threads| - 1], threads[|threads| - 1];
      ClaimThreadsExactly(ms, t, init, now);
      var (items, t') := ClaimThreads(ms, t, init, now);
      EarlierClaimsKeepThread(ms, t, init, now, t', last);
      OneMoreThread(ms, t, init, now, t', last);
      assert HasPending(ms, t, last);
      ClaimOneMore(ms, t, threads, now);
      var rows := PendingIn(ms, t, Some(last));
      OneMoreItem(ms, t, init, items, last, Item(rows[|rows| - 1], Keys(rows)));
    }
  }

  /** With distinct message keys: one item per chosen thread, represented by its newest
      pending message, and its ids are those of all pending messages of that thread. */
  lemma ItemsCoverTheirThreads(ms: seq<Message>, t: Table, limit: int, now: int)
    requires ByUid(ms) && DistinctKeys(ms)
    ensures var before := RecoverStale(t, now);
            var chosen := ChosenThreads(ms, before, limit);
            var (items, t') := ClaimPendingThreads(ms, t, limit, now);
            && |items| == |chosen|
            && ClaimedExactly(ms, before, chosen, now, t')
            && forall i :: 0 <= i < |items| ==> IsItemOf(items[i], PendingIn(ms, before, Some(chosen[i])))
  {
    var before := RecoverStale(t, now);
    var chosen := ChosenThreads(ms, before, limit);
    ChosenThreadsAreNewest(ms, before, limit);
    forall i | 0 <= i < |chosen|
      ensures HasPending(ms, before, chosen[i])
    {
      var pending := PendingIn(ms, before, None);
      assert chosen[i] in Threads(pending);
      ThreadsMembers(pending, chosen[i]);
      var m :| m in pending && m.thread == chosen[i];
      PendingInMembers(ms, before, None, m);
      PendingInMembers(ms, before, Some(chosen[i]), m);
    }
    ClaimThreadsExactly(ms, before, chosen, now);
  }

  /** The id lists partition the claimed messages: every claimed id is in one list, once. */
  lemma IdsPartitionClaims(ms: seq<Message>, t: Table, limit: int, now: int, m: Message)
    requires ByUid(ms) && DistinctKeys(ms) && m in ms
    ensures var before := RecoverStale(t, now);
            var chosen := ChosenThreads(ms, before, limit);
            var (items, t') := ClaimPendingThreads(ms, t, limit, now);
            && |items| == |chosen|
            && (forall i :: 0 <= i < |items| ==>
                  (Key(m) in items[i].ids <==> Pending(before, Key(m)) && m.thread == chosen[i]))
            && (forall i :: 0 <= i < |items| ==> NoDuplicates(items[i].ids))
            && (forall i :: 0 <= i < |items| && Key(m) in items[i].ids ==> m.uid <= items[i].message.uid)
  {
    var before := RecoverStale(t, now);
    var chosen := ChosenThreads(ms, before, limit);
    var (items, t') := ClaimPendingThreads(ms, t, limit, now);
    ItemsCoverTheirThreads(ms, t, limit, now);
    hide ClaimPendingThreads, ChosenThreads, ClaimedExactly, PendingIn, Key, ByUid, DistinctKeys;
    forall i | 0 <= i < |items|
      ensures Key(m) in items[i].ids <==> Pending(before, Key(m)) && m.thread == chosen[i]
      ensures NoDuplicates(items[i].ids)
      ensures Key(m) in items[i].ids ==> m.uid <= items[i].message.uid
    {
      ThreadIds(ms, before, chosen[i], m);
    }
  }

  lemma ThreadIds(ms: seq<Message>, t: Table, thread: string, m: Message)
    requires ByUid(ms) && DistinctKeys(ms) && m in ms
    ensures var rows := PendingIn(ms, t, Some(thread));
            && (Key(m) in Keys(rows) <==> Pending(t, Key(m)) && m.thread == thread)
            && NoDuplicates(Keys(rows))
            && (Key(m) in Keys(rows) ==> m.uid <= rows[|rows| - 1].uid)
  {
    hide PendingIn, Key;
    var rows := PendingIn(ms, t, Some(thread));
    PendingInByUid(ms, t, Some(thread));
    KeysMembers(rows, Key(m));
    PendingInMembers(ms, t, Some(thread), m);
    if Key(m) in Keys(rows) {
      var m' :| m' in rows && Key(m') == Key(m);
      PendingInMembers(ms, t, Some(thread), m');
      SameKeySameMessage(ms, m, m');
    }
    forall i, j | 0 <= i < j < |rows|
      ensures Keys(rows)[i] != Keys(rows)[j]
    {
      PendingInMembers(ms, t, Some(thread), rows[i]);
      PendingInMembers(ms, t, Some(thread), rows[j]);
      if Key(rows[i]) == Key(rows[j]) {
        SameKeySameMessage(ms, rows[i], rows[j]);
      }
    }
  }

  // ----- single messages -----

  function StatusAt(t: Table, id: string): Option<Status> {
    if id in t then Some(t[id].status) else None
  }

  lemma {:induction false} NewestWithMembers(ms: seq<Message>, t: Table, status: Option<Status>)
    requires ByUid(ms)
    ensures var rows := NewestWith(ms, t, status);
            && (forall m :: m in rows <==> m in ms && StatusAt(t, Key(m)) == status)
            && (forall i, j :: 0 <= i < j < |rows| ==> rows[i].uid > rows[j].uid)
  {
    if ms != [] {
      var init, last := ms[..|ms| - 1], ms[|ms| - 1];
      assert ms == init + [last];
      NewestWithMembers(init, t, status);
      var older := NewestWith(init, t, status);
      forall i | 0 <= i < |older|
        ensures older[i].uid < last.uid
      {
        assert older[i] in older;
      }
    }
  }

  /** Never seen messages come before failed ones, and newer ones before older ones. */
  predicate Before(t: Table, m: Message, m': Message) {
    if StatusAt(t, Key(m)) == StatusAt(t, Key(m')) then m.uid > m'.uid else StatusAt(t, Key(m)) == None
  }

  function QueueOrder(ms: seq<Message>, t: Table): seq<Message> {
    NewestWith(ms, t, None) + NewestWith(ms, t, Some(Failed))
  }

  lemma QueueOrderIsOrdered(ms: seq<Message>, t: Table)
    requires ByUid(ms)
    ensures var all := QueueOrder(ms, t);
            && (forall m :: m in all <==> m in ms && Pending(t, Key(m)))
            && (forall i, j :: 0 <= i < j < |all| ==> Before(t, all[i], all[j]))
  {
    NewestWithMembers(ms, t, None);
    NewestWithMembers(ms, t, Some(Failed));
    hide NewestWith, Key, ByUid;
    var unseen, failed := NewestWith(ms, t, None), NewestWith(ms, t, Some(Failed));
    var all := QueueOrder(ms, t);
    forall i, j | 0 <= i < j < |all|
      ensures Before(t, all[i], all[j])
    {
      assert if i < |unseen| then all[i] in unseen else all[i] in failed;
      assert if j < |unseen| then all[j] in unseen else all[j] in failed;
    }
  }

  /** The listed messages are the first pending ones in queue order, as many as the limit allows. */
  lemma ListedMessagesAreFirst(ms: seq<Message>, t: Table, limit: int)
    requires ByUid(ms)
    ensures var rows := ListedMessages(ms, t, limit);
            var most := if limit < 1 then 1 else if limit > 200 then 200 else limit;
            && |rows| <= most
            && (forall m :: m in rows ==> m in ms && Pending(t, Key(m)))
            && (forall i, j :: 0 <= i < j < |rows| ==> Before(t, rows[i], rows[j]))
            && (forall m :: m in ms && Pending(t, Key(m)) && m !in rows ==>
                  |rows| == most && forall i :: 0 <= i < |rows| ==> Before(t, rows[i], m))
  {
    QueueOrderIsOrdered(ms, t);
    var all := QueueOrder(ms, t);
    hide NewestWith, Key, ByUid, Before, Pending;
    forall m
      ensures m in FirstOf(all, Clamp(limit)) ==> m in all
      ensures m in all && m !in FirstOf(all, Clamp(limit)) ==>
                |FirstOf(all, Clamp(limit))| == Clamp(limit) && exists j :: Clamp(limit) <= j < |all| && all[j] == m
    {
      FirstOfElements(all, Clamp(limit), m);
    }
  }

  // ----- the pending count -----

  ghost predicate SameUnsettled(t: Table, t': Table) {
    forall id :: Unsettled(t, id) == Unsettled(t', id)
  }

  lemma PendingCountGrows(ms: seq<Message>, t: Table)
    requires ms != []
    ensures PendingCount(ms, t) ==
              PendingCount(ms[..|ms| - 1], t) + if Unsettled(t, Key(ms[|ms| - 1])) then 1 else 0
  {
    var init, last := ms[..|ms| - 1], ms[|ms| - 1];
    assert ms == init + [last];
    CountAppend(init, last, (m: Message) => Unsettled(t, Key(m)));
  }

  lemma {:induction false} SameCount(ms: seq<Message>, t: Table, t': Table)
    requires SameUnsettled(t, t')
    ensures PendingCount(ms, t) == PendingCount(ms, t')
  {
    if ms != [] {
      SameCount(ms[..|ms| - 1], t, t');
      PendingCountGrows(ms, t);
      PendingCountGrows(ms, t');
    }
  }

  lemma ClaimingPendingKeepsUnsettled(t: Table, ids: seq<string>, now: int)
    requires forall i :: 0 <= i < |ids| ==> Unsettled(t, ids[i])
    ensures SameUnsettled(t, ClaimAll(t, ids, now))
  {
  }

  lemma {:induction false} ClaimThreadsKeepsUnsettled(ms: seq<Message>, t: Table, threads: seq<string>, now: int)
    ensures SameUnsettled(t, ClaimThreads(ms, t, threads, now).1)
  {
    if threads != [] {
      ClaimThreadsKeepsUnsettled(ms, t, threads[..|threads| - 1], now);
      var t' := ClaimThreads(ms, t, threads[..|threads| - 1], now).1;
      var rows := PendingIn(ms, t', Some(threads[|threads| - 1]));
      forall i | 0 <= i < |rows|
        ensures Unsettled(t', Keys(rows)[i])
      {
        PendingInMembers(ms, t', Some(threads[|threads| - 1]), rows[i]);
      }
      ClaimingPendingKeepsUnsettled(t', Keys(rows), now);
    }
  }

  /** Claiming, of messages or of threads, never changes the pending count. */
  lemma ListingKeepsPendingCount(ms: seq<Message>, t: Table, coalescing: bool, limit: int, now: int)
    requires ByUid(ms)
    ensures PendingCount(ms, Listing(ms, t, coalescing, limit, now).1) == PendingCount(ms, t)
  {
    var before := RecoverStale(t, now);
    assert SameUnsettled(t, before);
    if coalescing {
      ClaimThreadsKeepsUnsettled(ms, before, ChosenThreads(ms, before, limit), now);
    } else {
      var rows := ListedMessages(ms, before, limit);
      ListedMessagesAreFirst(ms, before, limit);
      forall i | 0 <= i < |rows|
        ensures Unsettled(before, Keys(rows)[i])
      {
        assert rows[i] in rows;
      }
      ClaimingPendingKeepsUnsettled(before, Keys(rows), now);
    }
    SameCount(ms, t, Listing(ms, t, coalescing, limit, now).1);
  }

  predicate IsSettled(t: Table, id: string) {
    id in t && t[id].status in {Processed, BelowConfidence, IgnoredRule}
  }

  lemma SettledOrNot(t: Table, id: string)
    ensures Unsettled(t, id) <==> !IsSettled(t, id)
  {
    if id in t {
      match t[id].status {
        case Running =>
        case Failed =>
        case _ =>
      }
    }
  }

  /** The count is zero exactly when every message is settled. */
  lemma {:induction false} NothingPendingExactly(ms: seq<Message>, t: Table)
    ensures PendingCount(ms, t) == 0 <==> forall i :: 0 <= i < |ms| ==> IsSettled(t, Key(ms[i]))
  {
    if ms != [] {
      var init, last := ms[..|ms| - 1], ms[|ms| - 1];
      NothingPendingExactly(init, t);
      PendingCountGrows(ms, t);
      hide PendingCount, Key;
      assert forall i :: 0 <= i < |init| ==> init[i] == ms[i];
      SettledOrNot(t, Key(last));
      hide IsSettled, Unsettled;
    }
  }

  /** The last of these items to list the id did not raise. */
  ghost predicate Closed(items: seq<Item>, verdicts: nat -> Verdict, id: string) {
    exists i: nat :: LastListed(items, i, id) && verdicts(i) != Raised
  }

  /** The messages among these that a cycle closes. */
  ghost function ClosedCount(ms: seq<Message>, items: seq<Item>, verdicts: nat -> Verdict): nat {
    if ms == [] then 0
    else ClosedCount(ms[..|ms| - 1], items, verdicts) + if Closed(items, verdicts, Key(ms[|ms| - 1])) then 1 else 0
  }

  lemma {:induction false} ListedHasLast(items: seq<Item>, id: string)
    requires InItems(items, id)
    ensures exists i: nat :: LastListed(items, i, id)
  {
    var init, last := items[..|items| - 1], items[|items| - 1];
    if id in last.ids {
      assert LastListed(items, |items| - 1, id);
    } else {
      PrefixItems(items, id);
      ListedHasLast(init, id);
      var i: nat :| LastListed(init, i, id);
      assert LastListed(items, i, id);
    }
  }

  /** What a cycle does to one id: it closes only what was open, and nothing else. */
  lemma CycleClosesExactly(
    ms: seq<Message>, t: Table, coalescing: bool, limit: int, claimedAt: int, now: int, verdicts: nat -> Verdict, id: string)
    ensures var (items, claimed) := Listing(ms, t, coalescing, limit, claimedAt);
            var t' := SettleAll(claimed, items, verdicts, now);
            && (Unsettled(t', id) <==> Unsettled(t, id) && !Closed(items, verdicts, id))
            && (Closed(items, verdicts, id) ==> Unsettled(t, id))
  {
    var (items, claimed) := Listing(ms, t, coalescing, limit, claimedAt);
    ListingHandsOut(ms, t, coalescing, limit, claimedAt, id);
    SettleAllAt(claimed, items, verdicts, now, id);
    hide Listing, SettleAll;
    if InItems(items, id) {
      ListedHasLast(items, id);
      var i: nat :| LastListed(items, i, id);
      LastItemDecides(claimed, items, verdicts, now, i, id);
      LastIsUnique(items, id, i);
    }
  }

  lemma LastIsUnique(items: seq<Item>, id: string, i: nat)
    requires LastListed(items, i, id)
    ensures forall j: nat :: LastListed(items, j, id) ==> j == i
  {
  }

  lemma {:induction false} ClosedAmong(part: seq<Message>, t: Table, t': Table, items: seq<Item>, verdicts: nat -> Verdict)
    requires forall id :: Unsettled(t', id) <==> Unsettled(t, id) && !Closed(items, verdicts, id)
    requires forall id :: Closed(items, verdicts, id) ==> Unsettled(t, id)
    ensures PendingCount(part, t') + ClosedCount(part, items, verdicts) == PendingCount(part, t)
  {
    if part != [] {
      ClosedAmong(part[..|part| - 1], t, t', items, verdicts);
      PendingCountGrows(part, t);
      PendingCountGrows(part, t');
    }
  }

  /** The pending count after a cycle is the one before, less the messages it closed; a message
      whose analysis raised stays counted. */
  lemma CycleBalancesPendingCount(
    ms: seq<Message>, t: Table, coalescing: bool, limit: int, claimedAt: int, now: int, verdicts: nat -> Verdict)
    ensures var (items, claimed) := Listing(ms, t, coalescing, limit, claimedAt);
            var t' := SettleAll(claimed, items, verdicts, now);
            PendingCount(ms, t') + ClosedCount(ms, items, verdicts) == PendingCount(ms, t)
  {
    var (items, claimed) := Listing(ms, t, coalescing, limit, claimedAt);
    var t' := SettleAll(claimed, items, verdicts, now);
    forall id
      ensures Unsettled(t', id) <==> Unsettled(t, id) && !Closed(items, verdicts, id)
      ensures Closed(items, verdicts, id) ==> Unsettled(t, id)
    {
      CycleClosesExactly(ms, t, coalescing, limit, claimedAt, now, verdicts, id);
    }
    hide Listing, SettleAll, Unsettled, Closed, PendingCount;
    ClosedAmong(ms, t, t', items, verdicts);
  }

  /** The items of a cycle with this outcome. */
  ghost function Ended(verdicts: nat -> Verdict, n: nat, v: Verdict): set<nat> {
    set i: nat | i < n && verdicts(i) == v
  }

  lemma OneMoreEnded(verdicts: nat -> Verdict, n: nat, v: Verdict)
    ensures Ended(verdicts, n + 1, v) == Ended(verdicts, n, v) + (if verdicts(n) == v then {n} else {})
    ensures n !in Ended(verdicts, n, v)
  {
  }

  /** The tallies of a cycle count its items by outcome. */
  lemma {:induction false} TallyCounts(verdicts: nat -> Verdict, n: nat, v: Verdict)
    ensures Tally(verdicts, n, v) == |Ended(verdicts, n, v)|
  {
    if n > 0 {
      TallyCounts(verdicts, n - 1, v);
      OneMoreEnded(verdicts, n - 1, v);
      hide Ended;
    } else {
      assert Ended(verdicts, 0, v) == {};
    }
  }

  // ----- the ids of messages -----

  /** The number that a string of digits shows. */
  function Shown(digits: string): nat
    requires forall i :: 0 <= i < |digits| ==> '0' <= digits[i] <= '9'
  {
    if digits == [] then 0 else Shown(digits[..|digits| - 1]) * 10 + ((digits[|digits| - 1] - '0') as nat)
  }

  predicate IsDecimal(digits: string, n: nat) {
    (forall i :: 0 <= i < |digits| ==> '0' <= digits[i] <= '9') && Shown(digits) == n
  }

  lemma {:induction false} DecimalShows(n: nat)
    ensures IsDecimal(Decimal(n), n) && (|Decimal(n)| > 1 ==> Decimal(n)[0] != '0')
    ensures Decimal(n) != [] && (n > 0 ==> Decimal(n)[0] != '0')
  {
    var last := ((n % 10) as char) + '0';
    if n >= 10 {
      DecimalShows(n / 10);
      assert Decimal(n)[..|Decimal(n)| - 1] == Decimal(n / 10);
    } else {
      assert Decimal(n) == [last] && Decimal(n)[..0] == [];
    }
  }

  /** A message is known by its provider's id, else by its Internet id, else by its uid in
      decimal digits; two messages known by their uids have different ids. */
  lemma KeyIsTheFirstId(m: Message, m': Message)
    ensures if m.remoteId.GetOr("") != "" then m.remoteId == Some(Key(m))
            else if m.internetId.GetOr("") != "" then m.internetId == Some(Key(m))
            else IsDecimal(Key(m), m.uid)
    ensures m.remoteId == m.internetId == m'.remoteId == m'.internetId == None && m.uid != m'.uid ==> Key(m) != Key(m')
  {
    DecimalShows(m.uid);
    DecimalShows(m'.uid);
  }

  // ----- the cycle settles what it claimed -----

  predicate InItems(items: seq<Item>, id: string) {
    exists i :: 0 <= i < |items| && id in items[i].ids
  }

  lemma PrefixItems(items: seq<Item>, id: string)
    requires items != []
    ensures InItems(items, id) <==> InItems(items[..|items| - 1], id) || id in items[|items| - 1].ids
  {
  }

  /** A settled id got the status of an item that lists it; other rows are untouched. */
  lemma {:induction false} SettleAllAt(t: Table, items: seq<Item>, verdicts: nat -> Verdict, now: int, id: string)
    ensures var t' := SettleAll(t, items, verdicts, now);
            if InItems(items, id) then
              exists i :: 0 <= i < |items| && id in items[i].ids && RowIs(t', id, Row(StatusOf(verdicts(i)), now))
            else SameRow(t, t', id)
  {
    if items != [] {
      var last := |items| - 1;
      var before := SettleAll(t, items[..last], verdicts, now);
      SettleAllAt(t, items[..last], verdicts, now, id);
      RecordAllAt(before, items[last].ids, StatusOf(verdicts(last)), now, id);
      PrefixItems(items, id);
      if id !in items[last].ids && InItems(items, id) {
        var j :| 0 <= j < last && id in items[..last][j].ids && RowIs(before, id, Row(StatusOf(verdicts(j)), now));
        assert id in items[j].ids;
      }
    }
  }

  /** Thread by thread, and also message by message, each claimed id is in one item. */
  lemma ClaimedIdsAreInOneItem(ms: seq<Message>, t: Table, coalescing: bool, limit: int, now: int, i: nat, j: nat, id: string)
    requires ByUid(ms) && DistinctKeys(ms)
    requires var items := Listing(ms, t, coalescing, limit, now).0;
             i < |items| && j < |items| && id in items[i].ids && id in items[j].ids
    ensures i == j
  {
    var before := RecoverStale(t, now);
    if coalescing {
      var chosen := ChosenThreads(ms, before, limit);
      ItemsCoverTheirThreads(ms, t, limit, now);
      ChosenThreadsAreNewest(ms, before, limit);
      var m := ListedUnder(ms, before, chosen[i], id);
      var m' := ListedUnder(ms, before, chosen[j], id);
      SameKeySameMessage(ms, m, m');
    } else {
      var rows := ListedMessages(ms, before, limit);
      ListedMessagesAreFirst(ms, before, limit);
      assert rows[i] in rows && rows[j] in rows;
      SameKeySameMessage(ms, rows[i], rows[j]);
    }
  }

  lemma ListedUnder(ms: seq<Message>, t: Table, thread: string, id: string) returns (m: Message)
    requires id in Keys(PendingIn(ms, t, Some(thread)))
    ensures m in ms && m.thread == thread && Key(m) == id
  {
    var rows := PendingIn(ms, t, Some(thread));
    KeysMembers(rows, id);
    m :| m in rows && Key(m) == id;
    PendingInMembers(ms, t, Some(thread), m);
  }

  /** How a cycle ends for an id that item `i` claimed: it is open for another try exactly if
      the analysis raised, and otherwise settled under the name of its outcome. */
  lemma CycleOutcomeExactly(
    ms: seq<Message>, t: Table, coalescing: bool, limit: int, claimedAt: int, now: int, verdicts: nat -> Verdict,
    i: nat, id: string)
    requires ByUid(ms) && DistinctKeys(ms)
    requires var items := Listing(ms, t, coalescing, limit, claimedAt).0; i < |items| && id in items[i].ids
    ensures var (items, claimed) := Listing(ms, t, coalescing, limit, claimedAt);
            var t' := SettleAll(claimed, items, verdicts, now);
            && (Pending(t', id) <==> verdicts(i) == Raised)
            && id in t' && t'[id].processedAt == now
            && (t'[id].status == IgnoredRule <==> verdicts(i) == Ignored)
            && (t'[id].status == Processed <==> verdicts(i) == Accepted)
            && (t'[id].status == BelowConfidence <==> verdicts(i) == Doubtful)
  {
    var (items, claimed) := Listing(ms, t, coalescing, limit, claimedAt);
    forall j | i < j < |items|
      ensures id !in items[j].ids
    {
      if id in items[j].ids {
        ClaimedIdsAreInOneItem(ms, t, coalescing, limit, claimedAt, i, j, id);
      }
    }
    LastItemDecides(claimed, items, verdicts, now, i, id);
    hide Listing, SettleAll, DistinctKeys, ByUid;
  }

  predicate RunningAt(t: Table, id: string) {
    id in t && t[id].status == Running
  }

  lemma {:induction false} OnlyItemsAreClaimed(ms: seq<Message>, t: Table, threads: seq<string>, now: int, id: string)
    ensures var (items, t') := ClaimThreads(ms, t, threads, now); InItems(items, id) || SameRow(t, t', id)
  {
    if threads != [] {
      var (items, t') := ClaimThreads(ms, t, threads[..|threads| - 1], now);
      OnlyItemsAreClaimed(ms, t, threads[..|threads| - 1], now, id);
      var rows := PendingIn(ms, t', Some(threads[|threads| - 1]));
      ClaimAllAt(t', Keys(rows), now, id);
      if rows != [] {
        var items' := items + [Item(rows[|rows| - 1], Keys(rows))];
        if id in Keys(rows) {
          assert id in items'[|items|].ids;
        } else if InItems(items, id) {
          var i :| 0 <= i < |items| && id in items[i].ids;
          assert items'[i] == items[i];
        }
      }
    }
  }

  /** A cycle leaves no row running that it claimed: what still runs after it was claimed
      before it, by somebody else, less than fifteen minutes ago. */
  lemma CycleLeavesNothingRunning(
    ms: seq<Message>, t: Table, coalescing: bool, limit: int, claimedAt: int, now: int, verdicts: nat -> Verdict, id: string)
    ensures var (items, claimed) := Listing(ms, t, coalescing, limit, claimedAt);
            var t' := SettleAll(claimed, items, verdicts, now);
            && (InItems(items, id) ==> !RunningAt(t', id))
            && (RunningAt(t', id) ==> RunningAt(t, id) && t'[id] == t[id] && !Stale(t[id], claimedAt))
  {
    var before := RecoverStale(t, claimedAt);
    var (items, claimed) := Listing(ms, t, coalescing, limit, claimedAt);
    SettleAllAt(claimed, items, verdicts, now, id);
    if coalescing {
      OnlyItemsAreClaimed(ms, before, ChosenThreads(ms, before, limit), claimedAt, id);
    } else {
      var rows := ListedMessages(ms, before, limit);
      ClaimAllAt(before, Keys(rows), claimedAt, id);
      if id in Keys(rows) {
        var i :| 0 <= i < |rows| && Keys(rows)[i] == id;
        assert id in items[i].ids;
      }
    }
  }

  /** A claim hands out pending ids only, and marks them. */
  lemma {:induction false} ClaimThreadsHandsOut(ms: seq<Message>, t: Table, threads: seq<string>, now: int, id: string)
    ensures var (items, t') := ClaimThreads(ms, t, threads, now);
            InItems(items, id) ==> Pending(t, id) && RowIs(t', id, Row(Running, now))
  {
    if threads != [] {
      var init, last := threads[..|threads| - 1], threads[|threads| - 1];
      var (items, t') := ClaimThreads(ms, t, init, now);
      ClaimThreadsHandsOut(ms, t, init, now, id);
      OnlyItemsAreClaimed(ms, t, init, now, id);
      var rows := PendingIn(ms, t', Some(last));
      ClaimAllAt(t', Keys(rows), now, id);
      if rows != [] {
        PrefixItems(items + [Item(rows[|rows| - 1], Keys(rows))], id);
        assert (items + [Item(rows[|rows| - 1], Keys(rows))])[..|items|] == items;
        RowsArePending(ms, t', Some(last), id);
      }
    }
  }

  lemma RowsArePending(ms: seq<Message>, t: Table, thread: Option<string>, id: string)
    ensures id in Keys(PendingIn(ms, t, thread)) ==> Pending(t, id)
  {
    var rows := PendingIn(ms, t, thread);
    KeysMembers(rows, id);
    if m :| m in rows && Key(m) == id {
      PendingInMembers(ms, t, thread, m);
    }
  }

  lemma ListedArePending(ms: seq<Message>, t: Table, limit: int, id: string)
    ensures id in Keys(ListedMessages(ms, t, limit)) ==> Pending(t, id)
  {
    if id in Keys(ListedMessages(ms, t, limit)) {
      var i :| 0 <= i < |ListedMessages(ms, t, limit)| && Keys(ListedMessages(ms, t, limit))[i] == id;
      NewestWithHas(ms, t, None);
      NewestWithHas(ms, t, Some(Failed));
      assert ListedMessages(ms, t, limit)[i] in NewestWith(ms, t, None) + NewestWith(ms, t, Some(Failed));
    }
  }

  lemma {:induction false} NewestWithHas(ms: seq<Message>, t: Table, status: Option<Status>)
    ensures forall m :: m in NewestWith(ms, t, status) ==> StatusAt(t, Key(m)) == status
  {
    if ms != [] {
      NewestWithHas(ms[..|ms| - 1], t, status);
    }
  }

  lemma ListingHandsOut(ms: seq<Message>, t: Table, coalescing: bool, limit: int, now: int, id: string)
    ensures var (items, t') := Listing(ms, t, coalescing, limit, now);
            if InItems(items, id) then Pending(RecoverStale(t, now), id) && RowIs(t', id, Row(Running, now))
            else SameRow(RecoverStale(t, now), t', id)
  {
    var before := RecoverStale(t, now);
    if coalescing {
      ClaimThreadsHandsOut(ms, before, ChosenThreads(ms, before, limit), now, id);
      OnlyItemsAreClaimed(ms, before, ChosenThreads(ms, before, limit), now, id);
    } else {
      var rows := ListedMessages(ms, before, limit);
      var items := Listing(ms, t, coalescing, limit, now).0;
      ListedArePending(ms, before, limit, id);
      ClaimAllAt(before, Keys(rows), now, id);
      if i :| 0 <= i < |items| && id in items[i].ids {
        assert Keys(rows)[i] == id;
      }
      if id in Keys(rows) {
        var i :| 0 <= i < |rows| && Keys(rows)[i] == id;
        assert id in items[i].ids;
      }
    }
  }
}
