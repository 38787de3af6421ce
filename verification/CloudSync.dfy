/** Mirrors of a remote inbox: the Gmail history sync and the Microsoft Graph delta sync. */
module CloudSync {
  import opened Common

  /** What the provider says about a message. */
  datatype Content = Content(thread: string, sender: string, subject: string, body: string, seen: bool)

  /** What the agent wrote about it. */
  datatype Analysis = Analysis(priority: string, category: string, summary: string, needsReply: bool)

  datatype StoredMessage = StoredMessage(content: Content, analysis: Option<Analysis>)

  /** The messages of one mailbox by remote id. */
  type Messages = map<string, StoredMessage>

  // ----- the message store -----

  function Upserted(t: Messages, id: string, content: Content): Messages {
    t[id := StoredMessage(content, if id in t then t[id].analysis else None)]
  }

  function UpsertAll(t: Messages, rows: seq<(string, Content)>): Messages {
    if rows == [] then t else Upserted(UpsertAll(t, rows[..|rows| - 1]), rows[|rows| - 1].0, rows[|rows| - 1].1)
  }

  class MessageStore {
    var messages: Messages
    var cursor: Option<string>

    constructor ()
      ensures messages == map[] && cursor == None
    {
      messages, cursor := map[], None;
    }

    method UpsertMessages(rows: seq<(string, Content)>)
      modifies `messages
      ensures messages == UpsertAll(old(messages), rows)
    {
      for i := 0 to |rows|
        invariant messages == UpsertAll(old(messages), rows[..i])
      {
        assert rows[..i + 1][..i] == rows[..i];
        var (id, content) := rows[i];
        var analysis := if id in messages then messages[id].analysis else None;
        messages := messages[id := StoredMessage(content, analysis)];
      }
      assert rows[..|rows|] == rows;
    }

    method DeleteRemoteMessage(id: string) returns (removed: bool)
      modifies `messages
      ensures messages == old(messages) - {id} && removed == (id in old(messages))
    {
      removed := id in messages;
      messages := messages - {id};
    }

    /** A sync without a new cursor keeps the stored one. */
    method RecordSync(newCursor: Option<string>)
      modifies `cursor
      ensures cursor == if newCursor.Some? then newCursor else old(cursor)
    {
      if newCursor.Some? {
        cursor := newCursor;
      }
    }
  }

  // ----- Gmail -----

  datatype HistoryRecord = MessageAdded(id: string) | LabelAdded(id: string) | LabelRemoved(id: string) | MessageDeleted(id: string)

  datatype HistoryPage = HistoryPage(records: seq<HistoryRecord>, historyId: Option<string>)

  /** The answer to get_raw_message: Gone is status 404, Broken any other error. */
  datatype Fetch = Found(content: Content, inbox: bool, historyId: Option<string>) | Gone | Broken

  function ChangedIds(records: seq<HistoryRecord>): set<string> {
    set i | 0 <= i < |records| && !records[i].MessageDeleted? && records[i].id != "" :: records[i].id
  }

  function DeletedIds(records: seq<HistoryRecord>): set<string> {
    set i | 0 <= i < |records| && records[i].MessageDeleted? && records[i].id != "" :: records[i].id
  }

  function AllRecords(pages: seq<HistoryPage>): seq<HistoryRecord> {
    if pages == [] then [] else AllRecords(pages[..|pages| - 1]) + pages[|pages| - 1].records
  }

  function NewestHistory(pages: seq<HistoryPage>, start: Option<string>): (newest: Option<string>)
    ensures newest == None ==> start == None
  {
    if pages == [] then start
    else if pages[|pages| - 1].historyId.Some? then pages[|pages| - 1].historyId
    else NewestHistory(pages[..|pages| - 1], start)
  }

  /** The cursor of the last page that names one, or the stored one if no page does. */
  ghost predicate LastCursor(pages: seq<HistoryPage>, start: Option<string>, newest: Option<string>) {
    || (newest == start && forall i :: 0 <= i < |pages| ==> pages[i].historyId == None)
    || exists i :: 0 <= i < |pages| && pages[i].historyId.Some? && newest == pages[i].historyId
                   && forall j :: i < j < |pages| ==> pages[j].historyId == None
  }

  lemma {:induction false} NewestHistoryIsLast(pages: seq<HistoryPage>, start: Option<string>)
    ensures LastCursor(pages, start, NewestHistory(pages, start))
  {
    if pages != [] && pages[|pages| - 1].historyId == None {
      var init := pages[..|pages| - 1];
      NewestHistoryIsLast(init, start);
      var newest := NewestHistory(pages, start);
      assert forall i :: 0 <= i < |init| ==> init[i] == pages[i];
      if i :| 0 <= i < |init| && init[i].historyId.Some? && newest == init[i].historyId
              && forall j :: i < j < |init| ==> init[j].historyId == None {
        assert pages[i].historyId == newest;
      }
    }
  }

  predicate InInbox(fetch: string -> Fetch, id: string) {
    fetch(id).Found? && fetch(id).inbox
  }

  function InboxOf(ids: set<string>, fetch: string -> Fetch): set<string> {
    set id | id in ids && InInbox(fetch, id)
  }

  /** Ids to write and ids to drop, once every changed id was fetched. */
  function ToStore(records: seq<HistoryRecord>, fetch: string -> Fetch): set<string> {
    InboxOf(ChangedIds(records) - DeletedIds(records), fetch)
  }

  function ToDrop(records: seq<HistoryRecord>, fetch: string -> Fetch): set<string> {
    DeletedIds(records) + (ChangedIds(records) - ToStore(records, fetch))
  }

  function Stored(t: Messages, ids: set<string>, fetch: string -> Fetch): Messages {
    map id | id in t.Keys + ids ::
      if id in ids && fetch(id).Found? then StoredMessage(fetch(id).content, if id in t then t[id].analysis else None)
      else if id in t then t[id]
      else StoredMessage(Content("", "", "", "", false), None)
  }

  function Synced(t: Messages, records: seq<HistoryRecord>, fetch: string -> Fetch): Messages {
    Stored(t, ToStore(records, fetch), fetch) - ToDrop(records, fetch)
  }

  function Elements(ids: seq<string>): set<string> {
    set i | 0 <= i < |ids| :: ids[i]
  }

  predicate AllFound(ids: seq<string>, fetch: string -> Fetch) {
    forall i :: 0 <= i < |ids| ==> fetch(ids[i]).Found?
  }

  /** The history id of the first listed inbox message that has one. */
  function FirstHistory(ids: seq<string>, fetch: string -> Fetch): Option<string> {
    if ids == [] then None
    else
      var before := FirstHistory(ids[..|ids| - 1], fetch);
      var answer := fetch(ids[|ids| - 1]);
      if before.Some? || !answer.Found? || !answer.inbox then before else answer.historyId
  }

  /** This listed message is in the inbox and names a history id. */
  predicate NamesHistory(id: string, fetch: string -> Fetch) {
    fetch(id).Found? && fetch(id).inbox && fetch(id).historyId.Some?
  }

  /** The history id of the first listed inbox message that has one, else the profile's, else
      the stored cursor. */
  ghost predicate FirstCursor(
    ids: seq<string>, fetch: string -> Fetch, profile: Option<string>, stored: Option<string>, cursor: Option<string>)
  {
    || (exists i :: 0 <= i < |ids| && NamesHistory(ids[i], fetch) && cursor == fetch(ids[i]).historyId
                    && forall j :: 0 <= j < i ==> !NamesHistory(ids[j], fetch))
    || (&& (forall i :: 0 <= i < |ids| ==> !NamesHistory(ids[i], fetch))
        && cursor == if profile.Some? then profile else stored)
  }

  lemma {:induction false} FirstHistoryIsFirst(ids: seq<string>, fetch: string -> Fetch)
    ensures if FirstHistory(ids, fetch) == None then forall i :: 0 <= i < |ids| ==> !NamesHistory(ids[i], fetch)
            else exists i :: 0 <= i < |ids| && NamesHistory(ids[i], fetch) && FirstHistory(ids, fetch) == fetch(ids[i]).historyId
                             && forall j :: 0 <= j < i ==> !NamesHistory(ids[j], fetch)
  {
    if ids != [] {
      var init, last := ids[..|ids| - 1], ids[|ids| - 1];
      FirstHistoryIsFirst(init, fetch);
      if FirstHistory(init, fetch).Some? {
        var i :| 0 <= i < |init| && NamesHistory(init[i], fetch) && FirstHistory(init, fetch) == fetch(init[i]).historyId
                 && forall j :: 0 <= j < i ==> !NamesHistory(init[j], fetch);
        assert NamesHistory(ids[i], fetch) && forall j :: 0 <= j < i ==> ids[j] == init[j];
      } else {
        assert forall j :: 0 <= j < |init| ==> ids[j] == init[j];
      }
    }
  }

  /** The cursor after a full sync. */
  function NewestListed(
    ids: seq<string>, fetch: string -> Fetch, profile: Option<string>, stored: Option<string>): Option<string>
  {
    if FirstHistory(ids, fetch).Some? then FirstHistory(ids, fetch) else if profile.Some? then profile else stored
  }

  predicate Fetchable(ids: set<string>, fetch: string -> Fetch) {
    forall id :: id in ids ==> !fetch(id).Broken?
  }

  predicate RowsFor(rows: seq<(string, Content)>, ids: set<string>, fetch: string -> Fetch) {
    && (forall i :: 0 <= i < |rows| ==>
          rows[i].0 in ids && fetch(rows[i].0).Found? && fetch(rows[i].0).content == rows[i].1)
    && (forall id :: id in ids ==> exists i :: 0 <= i < |rows| && rows[i].0 == id)
  }

  lemma StoresOneMore(t: Messages, ids: set<string>, fetch: string -> Fetch, id: string)
    requires fetch(id).Found?
    ensures Upserted(Stored(t, ids, fetch), id, fetch(id).content) == Stored(t, ids + {id}, fetch)
  {
  }

  /** Rows of different ids are stored the same in every order. */
  lemma {:induction false} UpsertAllStores(t: Messages, rows: seq<(string, Content)>, ids: set<string>, fetch: string -> Fetch)
    requires RowsFor(rows, ids, fetch)
    ensures UpsertAll(t, rows) == Stored(t, ids, fetch)
  {
    if rows != [] {
      var init, last := rows[..|rows| - 1], rows[|rows| - 1];
      var before := set i | 0 <= i < |init| :: init[i].0;
      UpsertAllStores(t, init, before, fetch);
      StoresOneMore(t, before, fetch, last.0);
      hide Stored;
      forall id
        ensures id in ids <==> id in before || id == last.0
      {
        if id in ids {
          var i :| 0 <= i < |rows| && rows[i].0 == id;
          assert i < |init| ==> init[i].0 == id;
        }
      }
      assert ids == before + {last.0};
    }
  }

  lemma CollectedSoFar(pages: seq<HistoryPage>, i: nat)
    requires i < |pages|
    ensures ChangedIds(AllRecords(pages[..i + 1])) == ChangedIds(AllRecords(pages[..i])) + ChangedIds(pages[i].records)
    ensures DeletedIds(AllRecords(pages[..i + 1])) == DeletedIds(AllRecords(pages[..i])) + DeletedIds(pages[i].records)
  {
    assert pages[..i + 1][..i] == pages[..i];
    RecordsAppend(AllRecords(pages[..i]), pages[i].records);
  }

  lemma RecordsAppend(a: seq<HistoryRecord>, b: seq<HistoryRecord>)
    ensures ChangedIds(a + b) == ChangedIds(a) + ChangedIds(b)
    ensures DeletedIds(a + b) == DeletedIds(a) + DeletedIds(b)
  {
    forall id
      ensures id in ChangedIds(a + b) <==> id in ChangedIds(a) || id in ChangedIds(b)
      ensures id in DeletedIds(a + b) <==> id in DeletedIds(a) || id in DeletedIds(b)
    {
      forall i | 0 <= i < |b|
        ensures (a + b)[|a| + i] == b[i]
      {
      }
      forall i | 0 <= i < |a|
        ensures (a + b)[i] == a[i]
      {
      }
    }
  }

  class GoogleGmailSyncService {
    const store: MessageStore

    constructor (store: MessageStore)
      ensures this.store == store
    {
      this.store := store;
    }

    /** Reads all history pages, then fetches every changed id, then writes and deletes. */
    method Partial(pages: seq<HistoryPage>, fetch: string -> Fetch) returns (r: Result<nat>)
      modifies store
      ensures var records := AllRecords(pages);
              var wanted := ChangedIds(records) - DeletedIds(records);
              if Fetchable(wanted, fetch) then
                && r.Success?
                && store.messages == Synced(old(store.messages), records, fetch)
                && store.cursor == NewestHistory(pages, old(store.cursor))
                && LastCursor(pages, old(store.cursor), store.cursor)
              else r == Failure(Remote) && store.messages == old(store.messages) && store.cursor == old(store.cursor)
    {
      var changed, deleted, newest := Collect(pages, store.cursor);
      var rows, drop, failed := FetchAll(changed - deleted, deleted, fetch);
      if failed {
        return Failure(Remote);
      }
      ghost var records := AllRecords(pages);
      NewestHistoryIsLast(pages, store.cursor);
      hide LastCursor;
      UpsertAllStores(store.messages, rows, ToStore(records, fetch), fetch);
      store.UpsertMessages(rows);
      assert drop == ToDrop(records, fetch);
      DeleteAll(drop);
      store.RecordSync(newest);
      r := Success(|rows|);
    }

    /** The page loop over the history. */
    static method Collect(pages: seq<HistoryPage>, start: Option<string>)
      returns (changed: set<string>, deleted: set<string>, newest: Option<string>)
      ensures changed == ChangedIds(AllRecords(pages)) && deleted == DeletedIds(AllRecords(pages))
      ensures newest == NewestHistory(pages, start)
    {
      changed, deleted, newest := {}, {}, start;
      for i := 0 to |pages|
        invariant changed == ChangedIds(AllRecords(pages[..i]))
        invariant deleted == DeletedIds(AllRecords(pages[..i]))
        invariant newest == NewestHistory(pages[..i], start)
      {
        CollectedSoFar(pages, i);
        assert pages[..i + 1][..i] == pages[..i];
        if pages[i].historyId.Some? {
          newest := pages[i].historyId;
        }
        changed := changed + ChangedIds(pages[i].records);
        deleted := deleted + DeletedIds(pages[i].records);
      }
      assert pages[..|pages|] == pages;
    }

    method DeleteAll(ids: set<string>)
      modifies store`messages
      ensures store.messages == old(store.messages) - ids
    {
      var todo := ids;
      while todo != {}
        invariant todo <= ids && store.messages == old(store.messages) - (ids - todo)
        decreases todo
      {
        var id :| id in todo;
        var _ := store.DeleteRemoteMessage(id);
        todo := todo - {id};
      }
      assert ids - todo == ids;
    }

    /** The fetch loop over a set, in any order. */
    static method FetchAll(wanted: set<string>, deleted: set<string>, fetch: string -> Fetch)
      returns (rows: seq<(string, Content)>, drop: set<string>, failed: bool)
      ensures failed <==> !Fetchable(wanted, fetch)
      ensures !failed ==>
                RowsFor(rows, InboxOf(wanted, fetch), fetch) && drop == deleted + (wanted - InboxOf(wanted, fetch))
    {
      rows, drop, failed := [], deleted, false;
      var todo := wanted;
      while todo != {}
        invariant todo <= wanted && Fetchable(wanted - todo, fetch)
        invariant RowsFor(rows, InboxOf(wanted - todo, fetch), fetch)
        invariant drop == deleted + (wanted - todo - InboxOf(wanted - todo, fetch))
        decreases todo
      {
        var id :| id in todo;
        var answer := fetch(id);
        if answer.Broken? {
          return [], {}, true;
        }
        ghost var before := InboxOf(wanted - todo, fetch);
        todo := todo - {id};
        if answer.Gone? || !answer.inbox {
          drop := drop + {id};
          assert InboxOf(wanted - todo, fetch) == before;
        } else {
          OneMoreRow(rows, before, fetch, id);
          rows := rows + [(id, answer.content)];
          assert InboxOf(wanted - todo, fetch) == before + {id};
        }
      }
      assert wanted - todo == wanted;
    }

    /** A listing of the inbox: rows are written, none is deleted. */
    method Full(ids: seq<string>, profile: Option<string>, fetch: string -> Fetch) returns (r: Result<nat>)
      modifies store
      ensures if AllFound(ids, fetch) then
                && r.Success?
                && store.messages == Stored(old(store.messages), InboxOf(Elements(ids), fetch), fetch)
                && store.cursor == NewestListed(ids, fetch, profile, old(store.cursor))
                && FirstCursor(ids, fetch, profile, old(store.cursor), store.cursor)
              else r.Failure? && store.messages == old(store.messages) && store.cursor == old(store.cursor)
    {
      var rows, newest, failed := FetchListed(ids, fetch);
      if failed {
        return Failure(Remote);
      }
      FirstHistoryIsFirst(ids, fetch);
      if newest == None {
        newest := profile;
      }
      UpsertAllStores(store.messages, rows, InboxOf(Elements(ids), fetch), fetch);
      store.UpsertMessages(rows);
      store.RecordSync(newest);
      r := Success(|rows|);
    }

    static method FetchListed(ids: seq<string>, fetch: string -> Fetch)
      returns (rows: seq<(string, Content)>, newest: Option<string>, failed: bool)
      ensures failed <==> !AllFound(ids, fetch)
      ensures !failed ==> RowsFor(rows, InboxOf(Elements(ids), fetch), fetch) && newest == FirstHistory(ids, fetch)
    {
      rows, newest, failed := [], None, false;
      for i := 0 to |ids|
        invariant AllFound(ids[..i], fetch) && newest == FirstHistory(ids[..i], fetch)
        invariant RowsFor(rows, InboxOf(Elements(ids[..i]), fetch), fetch)
      {
        var answer := fetch(ids[i]);
        if !answer.Found? {
          return [], None, true;
        }
        ghost var before := InboxOf(Elements(ids[..i]), fetch);
        assert ids[..i + 1] == ids[..i] + [ids[i]];
        assert Elements(ids[..i + 1]) == Elements(ids[..i]) + {ids[i]};
        if answer.inbox {
          OneMoreRow(rows, before, fetch, ids[i]);
          rows := rows + [(ids[i], answer.content)];
          newest := if newest.Some? then newest else answer.historyId;
          assert InboxOf(Elements(ids[..i + 1]), fetch) == before + {ids[i]};
        } else {
          assert InboxOf(Elements(ids[..i + 1]), fetch) == before;
        }
      }
      assert ids[..|ids|] == ids;
    }

    /** A full sync only without a cursor or when the history has expired (status 404). */
    method Sync(history: Result<seq<HistoryPage>>, ids: seq<string>, profile: Option<string>, fetch: string -> Fetch)
      returns (r: Result<nat>)
      modifies store
      ensures old(store.cursor).Some? && history.Success? && r.Success? ==>
                && store.messages == Synced(old(store.messages), AllRecords(history.value), fetch)
                && LastCursor(history.value, old(store.cursor), store.cursor)
      ensures old(store.cursor) == None || history == Failure(NotFound) ==>
                (r.Success? <==> AllFound(ids, fetch))
                && (r.Success? ==>
                      && store.messages == Stored(old(store.messages), InboxOf(Elements(ids), fetch), fetch)
                      && FirstCursor(ids, fetch, profile, old(store.cursor), store.cursor))
      ensures r.Failure? ==> store.messages == old(store.messages) && store.cursor == old(store.cursor)
    {
      if store.cursor.Some? {
        if history.Success? {
          r := Partial(history.value, fetch);
          return;
        }
        if history.error != NotFound {
          return Failure(history.error);
        }
      }
      r := Full(ids, profile, fetch);
    }
  }

  lemma OneMoreRow(rows: seq<(string, Content)>, ids: set<string>, fetch: string -> Fetch, id: string)
    requires RowsFor(rows, ids, fetch) && fetch(id).Found?
    ensures RowsFor(rows + [(id, fetch(id).content)], ids + {id}, fetch)
  {
    var more := rows + [(id, fetch(id).content)];
    assert more[|rows|].0 == id;
    forall x | x in ids
      ensures exists i :: 0 <= i < |more| && more[i].0 == x
    {
      var i :| 0 <= i < |rows| && rows[i].0 == x;
      assert more[i].0 == x;
    }
  }

  // ----- Microsoft Graph -----

  datatype GraphItem = Removed(id: string) | Present(id: string, content: Content)

  datatype GraphPage = GraphPage(items: seq<GraphItem>, next: bool, deltaLink: Option<string>)

  function WithoutRemoved(t: Messages, items: seq<GraphItem>): Messages {
    if items == [] then t
    else
      var before := WithoutRemoved(t, items[..|items| - 1]);
      var item := items[|items| - 1];
      if item.Removed? && item.id != "" then before - {item.id} else before
  }

  function PresentRows(items: seq<GraphItem>): seq<(string, Content)> {
    if items == [] then []
    else
      var before := PresentRows(items[..|items| - 1]);
      var item := items[|items| - 1];
      if item.Present? && item.id != "" then before + [(item.id, item.content)] else before
  }

  /** Removals take effect while a page is read, additions when it has been read. */
  function ApplyPage(t: Messages, page: GraphPage): Messages {
    UpsertAll(WithoutRemoved(t, page.items), PresentRows(page.items))
  }

  function ApplyPages(t: Messages, pages: seq<GraphPage>): Messages {
    if pages == [] then t else ApplyPage(ApplyPages(t, pages[..|pages| - 1]), pages[|pages| - 1])
  }

  const MAX_PAGES := 100

  /** The page loop from page n on; a feed that stops answering is a failed request. */
  function GraphLoop(t: Messages, feed: seq<Result<GraphPage>>, delta: Option<string>, n: nat): (Messages, Result<string>)
    requires n <= MAX_PAGES
    decreases MAX_PAGES - n
  {
    if n == MAX_PAGES then (t, Failure(Invalid))
    else if n >= |feed| then (t, Failure(Remote))
    else if feed[n].Failure? then (t, Failure(feed[n].error))
    else
      var page := feed[n].value;
      var t' := ApplyPage(t, page);
      var delta' := if page.deltaLink.Some? then page.deltaLink else delta;
      if page.next then GraphLoop(t', feed, delta', n + 1)
      else if delta' == None then (t', Failure(Invalid))
      else (t', Success(delta'.value))
  }

  class MicrosoftGraphSyncService {
    const store: MessageStore

    constructor (store: MessageStore)
      ensures this.store == store
    {
      this.store := store;
    }

    method ReadPage(page: GraphPage)
      modifies store
      ensures store.messages == ApplyPage(old(store.messages), page) && store.cursor == old(store.cursor)
    {
      var rows := [];
      for i := 0 to |page.items|
        invariant store.messages == WithoutRemoved(old(store.messages), page.items[..i])
        invariant rows == PresentRows(page.items[..i]) && store.cursor == old(store.cursor)
      {
        assert page.items[..i + 1][..i] == page.items[..i];
        var item := page.items[i];
        if item.id == "" {
          continue;
        }
        if item.Removed? {
          var _ := store.DeleteRemoteMessage(item.id);
          continue;
        }
        rows := rows + [(item.id, item.content)];
      }
      assert page.items[..|page.items|] == page.items;
      store.UpsertMessages(rows);
    }

    /** Pages take effect as they are read; the cursor moves only when the last one was. */
    method Sync(feed: seq<Result<GraphPage>>) returns (r: Result<string>)
      modifies store
      ensures (store.messages, r) == GraphLoop(old(store.messages), feed, None, 0)
      ensures store.cursor == if r.Success? then Some(r.value) else old(store.cursor)
    {
      var delta := None;
      for n := 0 to MAX_PAGES
        invariant GraphLoop(store.messages, feed, delta, n) == GraphLoop(old(store.messages), feed, None, 0)
        invariant store.cursor == old(store.cursor)
      {
        if n >= |feed| {
          return Failure(Remote);
        }
        if feed[n].Failure? {
          return Failure(feed[n].error);
        }
        var page := feed[n].value;
        ReadPage(page);
        if page.deltaLink.Some? {
          delta := page.deltaLink;
        }
        if !page.next {
          if delta == None {
            return Failure(Invalid);
          }
          store.RecordSync(delta);
          return Success(delta.value);
        }
      }
      r := Failure(Invalid);
    }
  }
}
