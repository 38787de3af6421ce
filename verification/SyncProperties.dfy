/** When a mirror agrees with the remote mailbox, and what an interrupted sync leaves. */
module SyncProperties {
  import opened Common
  import opened CloudSync

  // ----- Gmail -----

  datatype RemoteMessage = RemoteMessage(content: Content, inbox: bool)

  type Remote = map<string, RemoteMessage>

  /** Every answer shows the current remote message. */
  ghost predicate Faithful(fetch: string -> Fetch, remote: Remote) {
    forall id :: match fetch(id)
                 case Found(content, inbox, _) => id in remote && remote[id] == RemoteMessage(content, inbox)
                 case Gone => id !in remote
                 case Broken => false
  }

  predicate RemoteInbox(remote: Remote, id: string) {
    id in remote && remote[id].inbox
  }

  /** Mirror and remote inbox show the same at this id. */
  predicate AgreesAt(t: Messages, remote: Remote, id: string) {
    (id in t <==> RemoteInbox(remote, id)) && (id in t ==> t[id].content == remote[id].content)
  }

  ghost predicate Mirrors(t: Messages, remote: Remote) {
    forall id :: AgreesAt(t, remote, id)
  }

  /** A page of the history has this record. */
  predicate Reports(pages: seq<HistoryPage>, record: HistoryRecord) {
    exists p :: 0 <= p < |pages| && record in pages[p].records
  }

  /** The history says that this message was deleted. */
  predicate ReportsDeleted(pages: seq<HistoryPage>, id: string) {
    id != "" && Reports(pages, MessageDeleted(id))
  }

  /** The history says that this message arrived, or changed its labels. */
  predicate ReportsChanged(pages: seq<HistoryPage>, id: string) {
    id != "" && (Reports(pages, MessageAdded(id)) || Reports(pages, LabelAdded(id)) || Reports(pages, LabelRemoved(id)))
  }

  lemma {:induction false} AllRecordsHold(pages: seq<HistoryPage>, record: HistoryRecord)
    ensures record in AllRecords(pages) <==> Reports(pages, record)
  {
    if pages != [] {
      var init := pages[..|pages| - 1];
      AllRecordsHold(init, record);
      if p :| 0 <= p < |init| && record in init[p].records {
        assert record in pages[p].records;
      }
      if p :| 0 <= p < |pages| && record in pages[p].records {
        assert p < |init| ==> record in init[p].records;
      }
    }
  }

  lemma IdsAreReported(pages: seq<HistoryPage>, id: string)
    ensures id in DeletedIds(AllRecords(pages)) <==> ReportsDeleted(pages, id)
    ensures id in ChangedIds(AllRecords(pages)) <==> ReportsChanged(pages, id)
  {
    AllRecordsHold(pages, MessageDeleted(id));
    AllRecordsHold(pages, MessageAdded(id));
    AllRecordsHold(pages, LabelAdded(id));
    AllRecordsHold(pages, LabelRemoved(id));
    IdsOfRecords(AllRecords(pages), id);
    hide AllRecords, Reports, DeletedIds, ChangedIds;
  }

  lemma IdsOfRecords(records: seq<HistoryRecord>, id: string)
    ensures id in DeletedIds(records) <==> id != "" && MessageDeleted(id) in records
    ensures id in ChangedIds(records) <==>
              id != "" && (MessageAdded(id) in records || LabelAdded(id) in records || LabelRemoved(id) in records)
  {
    if id in DeletedIds(records) {
      var i :| 0 <= i < |records| && records[i].MessageDeleted? && records[i].id == id;
      assert records[i] == MessageDeleted(id);
    }
    if id in ChangedIds(records) {
      var i :| 0 <= i < |records| && !records[i].MessageDeleted? && records[i].id == id;
      assert records[i] in {MessageAdded(id), LabelAdded(id), LabelRemoved(id)};
    }
  }

  /** A partial sync makes the mirror equal to the remote inbox exactly when the ids its
      history does not mention agreed before, and no id reported deleted is in the inbox. */
  lemma PartialMirrorsExactly(t: Messages, pages: seq<HistoryPage>, fetch: string -> Fetch, remote: Remote)
    requires Faithful(fetch, remote)
    ensures Mirrors(Synced(t, AllRecords(pages), fetch), remote) <==>
              && (forall id :: !ReportsChanged(pages, id) && !ReportsDeleted(pages, id) ==> AgreesAt(t, remote, id))
              && (forall id :: ReportsDeleted(pages, id) ==> !RemoteInbox(remote, id))
  {
    var t' := Synced(t, AllRecords(pages), fetch);
    forall id
      ensures AgreesAt(t', remote, id) <==>
                if ReportsDeleted(pages, id) then !RemoteInbox(remote, id)
                else ReportsChanged(pages, id) || AgreesAt(t, remote, id)
    {
      PartialAt(t, AllRecords(pages), fetch, remote, id);
      IdsAreReported(pages, id);
    }
    hide AgreesAt, Synced, ReportsDeleted, ReportsChanged, RemoteInbox;
  }

  lemma PartialAt(t: Messages, records: seq<HistoryRecord>, fetch: string -> Fetch, remote: Remote, id: string)
    requires Faithful(fetch, remote)
    ensures AgreesAt(Synced(t, records, fetch), remote, id) <==>
              if id in DeletedIds(records) then !RemoteInbox(remote, id)
              else id in ChangedIds(records) || AgreesAt(t, remote, id)
  {
  }

  /** A partial sync keeps the analysis of every surviving row, and gives none to a new row. */
  lemma PartialKeepsAnalyses(t: Messages, pages: seq<HistoryPage>, fetch: string -> Fetch, id: string)
    requires id in Synced(t, AllRecords(pages), fetch)
    ensures Synced(t, AllRecords(pages), fetch)[id].analysis == if id in t then t[id].analysis else None
    ensures !ReportsChanged(pages, id) && !ReportsDeleted(pages, id) ==>
              id in t && Synced(t, AllRecords(pages), fetch)[id] == t[id]
  {
    IdsAreReported(pages, id);
    hide AllRecords, ReportsChanged, ReportsDeleted;
  }

  /** A partial sync that is cut after writing, at any point of its deletions, and run again
      leaves what an uncut one does. */
  lemma PartialSurvivesInterruption(t: Messages, records: seq<HistoryRecord>, fetch: string -> Fetch, dropped: set<string>)
    requires dropped <= ToDrop(records, fetch)
    ensures Synced(Stored(t, ToStore(records, fetch), fetch) - dropped, records, fetch) == Synced(t, records, fetch)
  {
  }

  /** A full sync never deletes: the mirror is exact when the ids it did not write agreed
      before. With a listing of the whole inbox that means: no stored row has left the inbox. */
  lemma FullMirrorsExactly(t: Messages, ids: seq<string>, fetch: string -> Fetch, remote: Remote)
    requires Faithful(fetch, remote) && AllFound(ids, fetch)
    ensures Mirrors(Stored(t, InboxOf(Elements(ids), fetch), fetch), remote) <==>
              forall id :: !(id in ids && RemoteInbox(remote, id)) ==> AgreesAt(t, remote, id)
    ensures (forall id :: RemoteInbox(remote, id) ==> id in ids) ==>
              (Mirrors(Stored(t, InboxOf(Elements(ids), fetch), fetch), remote) <==>
                 forall id :: id in t ==> RemoteInbox(remote, id))
  {
    var t' := Stored(t, InboxOf(Elements(ids), fetch), fetch);
    forall id
      ensures AgreesAt(t', remote, id) <==>
                if id in ids && RemoteInbox(remote, id) then true else AgreesAt(t, remote, id)
    {
      FullAt(t, ids, fetch, remote, id);
    }
  }

  /** A row that has left the inbox outlives a full sync of an empty inbox. */
  lemma FullKeepsStaleRow(row: StoredMessage, fetch: string -> Fetch)
    requires Faithful(fetch, map[])
    ensures !Mirrors(Stored(map["x" := row], InboxOf(Elements([]), fetch), fetch), map[])
  {
    assert !AgreesAt(Stored(map["x" := row], InboxOf(Elements([]), fetch), fetch), map[], "x");
  }

  lemma FullAt(t: Messages, ids: seq<string>, fetch: string -> Fetch, remote: Remote, id: string)
    requires Faithful(fetch, remote) && AllFound(ids, fetch)
    ensures AgreesAt(Stored(t, InboxOf(Elements(ids), fetch), fetch), remote, id) <==>
              (id in ids && RemoteInbox(remote, id)) || AgreesAt(t, remote, id)
  {
  }

  // ----- Graph: one row through the pages -----

  function RowOf(t: Messages, id: string): Option<StoredMessage> {
    if id in t then Some(t[id]) else None
  }

  function Put(row: Option<StoredMessage>, content: Content): Option<StoredMessage> {
    Some(StoredMessage(content, if row.Some? then row.value.analysis else None))
  }

  predicate Removes(items: seq<GraphItem>, id: string) {
    exists i :: 0 <= i < |items| && items[i] == Removed(id)
  }

  /** The last content these items give to `id`. */
  function LastContent(items: seq<GraphItem>, id: string): Option<Content> {
    if items == [] then None
    else if items[|items| - 1].Present? && items[|items| - 1].id == id then Some(items[|items| - 1].content)
    else LastContent(items[..|items| - 1], id)
  }

  function Updated(row: Option<StoredMessage>, content: Option<Content>): Option<StoredMessage> {
    if content.Some? then Put(row, content.value) else row
  }

  lemma RemovesLast(items: seq<GraphItem>, id: string)
    requires items != []
    ensures Removes(items, id) <==> Removes(items[..|items| - 1], id) || items[|items| - 1] == Removed(id)
  {
  }

  lemma {:induction false} RemovedRow(t: Messages, items: seq<GraphItem>, id: string)
    requires id != ""
    ensures RowOf(WithoutRemoved(t, items), id) == if Removes(items, id) then None else RowOf(t, id)
  {
    if items != [] {
      var init, last := items[..|items| - 1], items[|items| - 1];
      RemovedRow(t, init, id);
      RemovesLast(items, id);
    }
  }

  lemma {:induction false} PresentRow(t: Messages, items: seq<GraphItem>, id: string)
    requires id != ""
    ensures RowOf(UpsertAll(t, PresentRows(items)), id) == Updated(RowOf(t, id), LastContent(items, id))
  {
    if items != [] {
      var init, last := items[..|items| - 1], items[|items| - 1];
      PresentRow(t, init, id);
      assert last.Present? && last.id != "" ==> PresentRows(items)[..|PresentRows(items)| - 1] == PresentRows(init);
    }
  }

  /** Whether the pages remove `id`, and the content they leave it after that. */
  datatype Effect = Effect(removed: bool, content: Option<Content>)

  function PageEffect(e: Effect, items: seq<GraphItem>, id: string): Effect {
    var content := LastContent(items, id);
    Effect(e.removed || Removes(items, id),
           if content.Some? then content else if Removes(items, id) then None else e.content)
  }

  function PagesEffect(pages: seq<GraphPage>, id: string): Effect {
    if pages == [] then Effect(false, None)
    else PageEffect(PagesEffect(pages[..|pages| - 1], id), pages[|pages| - 1].items, id)
  }

  function Affected(row: Option<StoredMessage>, e: Effect): Option<StoredMessage> {
    Updated(if e.removed then None else row, e.content)
  }

  lemma {:induction false} PagesRow(t: Messages, pages: seq<GraphPage>, id: string)
    requires id != ""
    ensures RowOf(ApplyPages(t, pages), id) == Affected(RowOf(t, id), PagesEffect(pages, id))
  {
    if pages != [] {
      var init, last := pages[..|pages| - 1], pages[|pages| - 1];
      PagesRow(t, init, id);
      RemovedRow(ApplyPages(t, init), last.items, id);
      PresentRow(WithoutRemoved(ApplyPages(t, init), last.items), last.items, id);
    }
  }

  lemma {:induction false} NoEmptyIds(t: Messages, pages: seq<GraphPage>)
    requires "" !in t
    ensures "" !in ApplyPages(t, pages)
  {
    if pages != [] {
      NoEmptyIds(t, pages[..|pages| - 1]);
      NoEmptyRemoved(ApplyPages(t, pages[..|pages| - 1]), pages[|pages| - 1].items);
      NoEmptyPresent(WithoutRemoved(ApplyPages(t, pages[..|pages| - 1]), pages[|pages| - 1].items), pages[|pages| - 1].items);
    }
  }

  lemma {:induction false} NoEmptyRemoved(t: Messages, items: seq<GraphItem>)
    requires "" !in t
    ensures "" !in WithoutRemoved(t, items)
  {
    if items != [] {
      NoEmptyRemoved(t, items[..|items| - 1]);
    }
  }

  lemma {:induction false} NoEmptyPresent(t: Messages, items: seq<GraphItem>)
    requires "" !in t
    ensures "" !in UpsertAll(t, PresentRows(items))
  {
    if items != [] {
      NoEmptyPresent(t, items[..|items| - 1]);
      var last := items[|items| - 1];
      assert last.Present? && last.id != "" ==>
          PresentRows(items)[..|PresentRows(items)| - 1] == PresentRows(items[..|items| - 1]);
    }
  }

  lemma SameRowsSameTable(t: Messages, t': Messages)
    requires forall id :: RowOf(t, id) == RowOf(t', id)
    ensures t == t'
  {
    forall id
      ensures id in t <==> id in t'
      ensures id in t ==> t[id] == t'[id]
    {
      assert RowOf(t, id) == RowOf(t', id);
    }
  }

  // ----- Graph: interruption -----

  /** A feed whose last page, and only that, has no next link. */
  predicate CompleteFeed(pages: seq<GraphPage>) {
    && 0 < |pages| <= 100 && !pages[|pages| - 1].next && pages[|pages| - 1].deltaLink.Some?
    && forall i :: 0 <= i < |pages| - 1 ==> pages[i].next
  }

  function Answers(pages: seq<GraphPage>): (feed: seq<Result<GraphPage>>)
    ensures |feed| == |pages| && forall i :: 0 <= i < |pages| ==> feed[i] == Success(pages[i])
  {
    seq(|pages|, i requires 0 <= i < |pages| => Success(pages[i]))
  }

  lemma {:induction false} LoopAppliesPages(
    t: Messages, pages: seq<GraphPage>, feed: seq<Result<GraphPage>>, delta: Option<string>, n: nat, k: nat)
    requires n <= k <= |pages| && CompleteFeed(pages) && |feed| == k
    requires forall i :: 0 <= i < k ==> feed[i] == Success(pages[i])
    ensures var (t', r) := GraphLoop(ApplyPages(t, pages[..n]), feed, delta, n);
            && (n < k || k < |pages| ==> t' == ApplyPages(t, pages[..k]))
            && (n < k == |pages| ==> r == Success(pages[k - 1].deltaLink.value))
            && (k < |pages| ==> r == Failure(Remote))
    decreases k - n
  {
    if n < k {
      assert pages[..n + 1][..n] == pages[..n];
      var page := pages[n];
      LoopAppliesPages(t, pages, feed, if page.deltaLink.Some? then page.deltaLink else delta, n + 1, k);
    }
  }

  /** A complete feed is applied page by page and gives the new cursor; a feed that breaks
      off leaves the pages read so far and the old cursor. */
  lemma SyncAppliesPages(t: Messages, pages: seq<GraphPage>, k: nat)
    requires CompleteFeed(pages) && k < |pages|
    ensures GraphLoop(t, Answers(pages), None, 0) ==
              (ApplyPages(t, pages), Success(pages[|pages| - 1].deltaLink.value))
    ensures GraphLoop(t, Answers(pages[..k]), None, 0) == (ApplyPages(t, pages[..k]), Failure(Remote))
  {
    assert pages[..|pages|] == pages && pages[..0] == [];
    LoopAppliesPages(t, pages, Answers(pages), None, 0, |pages|);
    LoopAppliesPages(t, pages, Answers(pages[..k]), None, 0, k);
  }

  lemma {:induction false} LoopGivesUp(t: Messages, pages: seq<GraphPage>, delta: Option<string>, n: nat)
    requires n <= 100 <= |pages| && forall i :: 0 <= i < 100 ==> pages[i].next
    ensures GraphLoop(ApplyPages(t, pages[..n]), Answers(pages), delta, n) == (ApplyPages(t, pages[..100]), Failure(Invalid))
    decreases 100 - n
  {
    if n < 100 {
      assert pages[..n + 1][..n] == pages[..n];
      LoopGivesUp(t, pages, if pages[n].deltaLink.Some? then pages[n].deltaLink else delta, n + 1);
    }
  }

  /** A feed that goes on after 100 pages fails; what those pages changed stays. */
  lemma SyncGivesUpAfterHundredPages(t: Messages, pages: seq<GraphPage>)
    requires |pages| >= 100 && forall i :: 0 <= i < 100 ==> pages[i].next
    ensures GraphLoop(t, Answers(pages), None, 0) == (ApplyPages(t, pages[..100]), Failure(Invalid))
  {
    LoopGivesUp(t, pages, None, 0);
  }

  lemma {:induction false} LoopFindsNoCursor(t: Messages, pages: seq<GraphPage>, n: nat)
    requires n < |pages| <= 100 && !pages[|pages| - 1].next
    requires forall i :: 0 <= i < |pages| ==> pages[i].deltaLink == None && (i < |pages| - 1 ==> pages[i].next)
    ensures GraphLoop(ApplyPages(t, pages[..n]), Answers(pages), None, n) == (ApplyPages(t, pages), Failure(Invalid))
    decreases |pages| - n
  {
    assert pages[..n + 1][..n] == pages[..n] && pages[..|pages|] == pages;
    if n + 1 < |pages| {
      LoopFindsNoCursor(t, pages, n + 1);
    }
  }

  /** A feed that ends without naming a cursor fails; what its pages changed stays. */
  lemma SyncNeedsACursor(t: Messages, pages: seq<GraphPage>)
    requires 0 < |pages| <= 100 && !pages[|pages| - 1].next
    requires forall i :: 0 <= i < |pages| ==> pages[i].deltaLink == None && (i < |pages| - 1 ==> pages[i].next)
    ensures GraphLoop(t, Answers(pages), None, 0) == (ApplyPages(t, pages), Failure(Invalid))
  {
    LoopFindsNoCursor(t, pages, 0);
  }

  /** What a prefix of the pages, and a part of the next one, did is contained in the effect
      of all of them. */
  lemma {:induction false} PrefixEffect(pages: seq<GraphPage>, k: nat, id: string)
    requires k <= |pages|
    ensures var some, all := PagesEffect(pages[..k], id), PagesEffect(pages, id);
            && (some.removed ==> all.removed)
            && (!all.removed && all.content == None ==> some.content == None)
  {
    if k == |pages| {
      assert pages[..k] == pages;
    } else {
      assert pages[..|pages| - 1][..k] == pages[..k];
      PrefixEffect(pages[..|pages| - 1], k, id);
    }
  }

  lemma {:induction false} PageRemovalCounts(pages: seq<GraphPage>, k: nat, id: string)
    requires k < |pages| && Removes(pages[k].items, id)
    ensures PagesEffect(pages, id).removed
  {
    if k < |pages| - 1 {
      PageRemovalCounts(pages[..|pages| - 1], k, id);
    }
  }

  /** Cutting a delta sync after any number of pages, or within the removals of the next
      one, and running it again from the stored cursor gives the same rows, analyses
      included, as one uncut run. */
  lemma RerunEqualsUncut(t: Messages, pages: seq<GraphPage>, k: nat, j: nat)
    requires "" !in t && k < |pages| && j <= |pages[k].items|
    ensures ApplyPages(WithoutRemoved(ApplyPages(t, pages[..k]), pages[k].items[..j]), pages) == ApplyPages(t, pages)
  {
    var partly := pages[k].items[..j];
    var cut := WithoutRemoved(ApplyPages(t, pages[..k]), partly);
    NoEmptyIds(t, pages[..k]);
    NoEmptyRemoved(ApplyPages(t, pages[..k]), partly);
    NoEmptyIds(cut, pages);
    NoEmptyIds(t, pages);
    forall id
      ensures RowOf(ApplyPages(cut, pages), id) == RowOf(ApplyPages(t, pages), id)
    {
      if id != "" {
        PagesRow(t, pages[..k], id);
        RemovedRow(ApplyPages(t, pages[..k]), partly, id);
        PagesRow(cut, pages, id);
        PagesRow(t, pages, id);
        PrefixEffect(pages, k, id);
        if Removes(partly, id) {
          var i :| 0 <= i < |partly| && partly[i] == Removed(id);
          assert pages[k].items[i] == Removed(id);
          PageRemovalCounts(pages, k, id);
        }
      }
    }
    SameRowsSameTable(ApplyPages(cut, pages), ApplyPages(t, pages));
  }

  // ----- Graph: order within a page -----

  /** The mirror that follows the items one by one, in their order. */
  function InOrder(t: Messages, items: seq<GraphItem>): Messages {
    if items == [] then t
    else
      var before := InOrder(t, items[..|items| - 1]);
      var item := items[|items| - 1];
      if item.id == "" then before
      else if item.Removed? then before - {item.id}
      else Upserted(before, item.id, item.content)
  }

  function InOrderPages(t: Messages, pages: seq<GraphPage>): Messages {
    if pages == [] then t else InOrder(InOrderPages(t, pages[..|pages| - 1]), pages[|pages| - 1].items)
  }

  predicate Mentions(items: seq<GraphItem>, id: string) {
    Removes(items, id) || LastContent(items, id).Some?
  }

  predicate EndsRemoved(items: seq<GraphItem>, id: string) {
    items != [] && (items[|items| - 1] == Removed(id)
                    || (items[|items| - 1].id != id && EndsRemoved(items[..|items| - 1], id)))
  }

  function ItemsEffect(e: Effect, items: seq<GraphItem>, id: string): Effect {
    if EndsRemoved(items, id) then Effect(true, None) else PageEffect(e, items, id)
  }

  function OrderedEffect(pages: seq<GraphPage>, id: string): Effect {
    if pages == [] then Effect(false, None)
    else ItemsEffect(OrderedEffect(pages[..|pages| - 1], id), pages[|pages| - 1].items, id)
  }

  lemma {:induction false} InOrderRow(t: Messages, items: seq<GraphItem>, id: string)
    requires id != ""
    ensures RowOf(InOrder(t, items), id) == Affected(RowOf(t, id), ItemsEffect(Effect(false, None), items, id))
    ensures EndsRemoved(items, id) ==> Removes(items, id)
  {
    if items != [] {
      var init, last := items[..|items| - 1], items[|items| - 1];
      InOrderRow(t, init, id);
      RemovesLast(items, id);
    }
  }

  lemma {:induction false} InOrderPagesRow(t: Messages, pages: seq<GraphPage>, id: string)
    requires id != ""
    ensures RowOf(InOrderPages(t, pages), id) == Affected(RowOf(t, id), OrderedEffect(pages, id))
  {
    if pages != [] {
      var init, last := pages[..|pages| - 1], pages[|pages| - 1];
      InOrderPagesRow(t, init, id);
      InOrderRow(InOrderPages(t, init), last.items, id);
    }
  }

  /** The last page that mentions `id` adds it and then ends with its removal. */
  predicate Misplaced(pages: seq<GraphPage>, id: string) {
    pages != []
    && if Mentions(pages[|pages| - 1].items, id)
       then LastContent(pages[|pages| - 1].items, id).Some? && EndsRemoved(pages[|pages| - 1].items, id)
       else Misplaced(pages[..|pages| - 1], id)
  }

  lemma {:induction false} EffectsDiffer(pages: seq<GraphPage>, id: string)
    ensures var paged, ordered := PagesEffect(pages, id), OrderedEffect(pages, id);
            && paged.removed == ordered.removed
            && (if Misplaced(pages, id) then paged.removed && paged.content.Some? && ordered.content == None
                else paged.content == ordered.content)
  {
    if pages != [] {
      EffectsDiffer(pages[..|pages| - 1], id);
      EndsRemovedRemoves(pages[|pages| - 1].items, id);
    }
  }

  lemma {:induction false} EndsRemovedRemoves(items: seq<GraphItem>, id: string)
    ensures EndsRemoved(items, id) ==> Removes(items, id)
  {
    if items != [] {
      EndsRemovedRemoves(items[..|items| - 1], id);
      RemovesLast(items, id);
    }
  }

  /** A paged delta sync gives the state of the last write for an id exactly when the last
      page that mentions the id does not add it and end with its removal. */
  lemma PagedIsLastWriteExactly(t: Messages, pages: seq<GraphPage>, id: string)
    requires id != ""
    ensures RowOf(ApplyPages(t, pages), id) == RowOf(InOrderPages(t, pages), id) <==> !Misplaced(pages, id)
  {
    PagesRow(t, pages, id);
    InOrderPagesRow(t, pages, id);
    EffectsDiffer(pages, id);
  }

  /** A page that adds a message and then removes it leaves the message in the mirror. */
  lemma AddedThenRemovedStays(t: Messages, id: string, content: Content)
    requires id != ""
    ensures var page := GraphPage([Present(id, content), Removed(id)], false, Some("delta"));
            id in ApplyPages(t, [page]) && id !in InOrderPages(t, [page])
  {
    var items := [Present(id, content), Removed(id)];
    var pages := [GraphPage(items, false, Some("delta"))];
    assert pages[0].items == items && items[..1] == [Present(id, content)];
    assert LastContent(items, id) == Some(content) && EndsRemoved(items, id);
    PagesRow(t, pages, id);
    InOrderPagesRow(t, pages, id);
    assert pages[..0] == [];
    assert PagesEffect(pages, id).content == Some(content) && OrderedEffect(pages, id) == Effect(true, None);
  }

  /** Applying the same pages twice changes nothing: the rerun after a crash between the last
      page and the recording of the cursor. */
  lemma PagesAreIdempotent(t: Messages, pages: seq<GraphPage>)
    requires "" !in t
    ensures ApplyPages(ApplyPages(t, pages), pages) == ApplyPages(t, pages)
  {
    NoEmptyIds(t, pages);
    NoEmptyIds(ApplyPages(t, pages), pages);
    forall id
      ensures RowOf(ApplyPages(ApplyPages(t, pages), pages), id) == RowOf(ApplyPages(t, pages), id)
    {
      if id != "" {
        PagesRow(t, pages, id);
        PagesRow(ApplyPages(t, pages), pages, id);
      }
    }
    SameRowsSameTable(ApplyPages(ApplyPages(t, pages), pages), ApplyPages(t, pages));
  }
}
