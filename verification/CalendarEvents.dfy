/** Calendar event drafts, the payload sent to Google for them, and the test that
    decides whether a remote event already shows what the owner approved. */
module CalendarEvents {
  import opened Common

  /** The validated fields of a CalendarEventDraft; times are instants. */
  datatype EventDraft = EventDraft(
    summary: string,
    start: int,
    end: int,
    description: Option<string>,
    location: Option<string>,
    attendees: seq<string>,
    timeZone: Option<string>)

  /** What the pydantic validators of the source guarantee of every draft. */
  predicate ValidDraft(draft: EventDraft) {
    && draft.summary != ""
    && draft.start < draft.end
    && (forall i :: 0 <= i < |draft.attendees| ==> draft.attendees[i] != "")
  }

  /** A Google start or end object; an all-day event carries `date`. */
  datatype TimeField = TimeField(dateTime: Option<int>, date: Option<int>, zone: Option<string>)

  /** The JSON body sent to Google: a field that is None is not in the dictionary. */
  datatype Payload = Payload(
    summary: string,
    start: TimeField,
    end: TimeField,
    description: Option<string>,
    location: Option<string>,
    attendees: Option<seq<string>>)

  /** The part of a remote event that the gateway reads. An attendee without an
      address is the empty string. */
  datatype EventBody = EventBody(
    summary: Option<string>,
    description: Option<string>,
    location: Option<string>,
    start: TimeField,
    end: TimeField,
    attendees: seq<string>,
    transparent: bool,
    cancelled: bool)

  /** The dictionary that google_payload builds for a draft. */
  function GooglePayload(draft: EventDraft): Payload {
    var zone := OrNone(draft.timeZone);
    Payload(
      draft.summary,
      TimeField(Some(draft.start), None, zone),
      TimeField(Some(draft.end), None, zone),
      OrNone(draft.description),
      OrNone(draft.location),
      if draft.attendees == [] then None else Some(draft.attendees))
  }

  /** The payload says what the draft says, text by text; what the draft leaves empty is not
      in it. */
  ghost predicate Says(payload: Payload, draft: EventDraft) {
    && payload.summary == draft.summary
    && payload.start.dateTime == Some(draft.start) && payload.end.dateTime == Some(draft.end)
    && payload.start.date == None == payload.end.date
    && payload.start.zone == payload.end.zone == (if draft.timeZone == Some("") then None else draft.timeZone)
    && payload.description == (if draft.description == Some("") then None else draft.description)
    && payload.location == (if draft.location == Some("") then None else draft.location)
    && payload.attendees == (if draft.attendees == [] then None else Some(draft.attendees))
  }

  /** google_payload, key by key as the source fills it. */
  method BuildGooglePayload(draft: EventDraft) returns (payload: Payload)
    ensures payload == GooglePayload(draft) && Says(payload, draft)
  {
    var start := TimeField(Some(draft.start), None, None);
    var end := TimeField(Some(draft.end), None, None);
    if draft.timeZone.Some? && draft.timeZone.value != "" {
      start := start.(zone := draft.timeZone);
      end := end.(zone := draft.timeZone);
    }
    payload := Payload(draft.summary, start, end, None, None, None);
    if draft.description.Some? && draft.description.value != "" {
      payload := payload.(description := draft.description);
    }
    if draft.location.Some? && draft.location.value != "" {
      payload := payload.(location := draft.location);
    }
    if draft.attendees != [] {
      payload := payload.(attendees := Some(draft.attendees));
    }
  }

  /** The case-folded addresses of the attendees that have one. */
  function Addresses(attendees: seq<string>): multiset<string> {
    if attendees == [] then multiset{}
    else
      (if attendees[0] == "" then multiset{} else multiset{CaseFold(attendees[0])}) + Addresses(attendees[1..])
  }

  /** _event_matches_draft. Two sorted lists are equal exactly when they hold the same
      multiset, which is how the attendees are compared here. */
  predicate Matches(remote: EventBody, draft: EventDraft) {
    var expected := GooglePayload(draft);
    && OrNone(remote.summary) == OrNone(Some(expected.summary))
    && OrNone(remote.description) == OrNone(expected.description)
    && OrNone(remote.location) == OrNone(expected.location)
    && remote.start == expected.start
    && remote.end == expected.end
    && Addresses(remote.attendees) == Addresses(expected.attendees.GetOr([]))
  }

  function MergeTime(before: TimeField, patch: TimeField): TimeField {
    TimeField(
      if patch.dateTime.Some? then patch.dateTime else before.dateTime,
      if patch.date.Some? then patch.date else before.date,
      if patch.zone.Some? then patch.zone else before.zone)
  }

  /** What the server stores for a PATCH: a JSON merge, which keeps every field that the
      patch does not mention (section 2 of RFC 7396). */
  function MergePatch(before: EventBody, patch: Payload): EventBody {
    before.(summary := Some(patch.summary),
         description := if patch.description.Some? then patch.description else before.description,
         location := if patch.location.Some? then patch.location else before.location,
         start := MergeTime(before.start, patch.start),
         end := MergeTime(before.end, patch.end),
         attendees := patch.attendees.GetOr(before.attendees))
  }

  /** Every field that the draft fills is the draft's afterwards, every other one is as before. */
  ghost predicate Patched(before: EventBody, after: EventBody, draft: EventDraft) {
    && after.summary == Some(draft.summary)
    && after.description == (if OrNone(draft.description).Some? then draft.description else before.description)
    && after.location == (if OrNone(draft.location).Some? then draft.location else before.location)
    && after.start.dateTime == Some(draft.start) && after.end.dateTime == Some(draft.end)
    && after.start.date == before.start.date && after.end.date == before.end.date
    && after.start.zone == (if OrNone(draft.timeZone).Some? then draft.timeZone else before.start.zone)
    && after.end.zone == (if OrNone(draft.timeZone).Some? then draft.timeZone else before.end.zone)
    && after.attendees == (if draft.attendees == [] then before.attendees else draft.attendees)
    && after.transparent == before.transparent && after.cancelled == before.cancelled
  }

  lemma MergePatches(before: EventBody, draft: EventDraft)
    ensures Patched(before, MergePatch(before, GooglePayload(draft)), draft)
  {
  }

  /** What the server stores for an insert. */
  function FreshBody(payload: Payload): EventBody {
    EventBody(Some(payload.summary), payload.description, payload.location, payload.start, payload.end,
              payload.attendees.GetOr([]), false, false)
  }

  /** Every optional field that google_payload leaves out for this draft is empty on `before`. */
  predicate OmittedFieldsEmpty(before: EventBody, draft: EventDraft) {
    && (OrNone(draft.description) == None ==> OrNone(before.description) == None)
    && (OrNone(draft.location) == None ==> OrNone(before.location) == None)
    && (OrNone(draft.timeZone) == None ==> before.start.zone == None && before.end.zone == None)
    && before.start.date == None
    && before.end.date == None
    && (draft.attendees == [] ==> forall i :: 0 <= i < |before.attendees| ==> before.attendees[i] == "")
  }

  lemma {:induction false} NoAddresses(attendees: seq<string>)
    ensures Addresses(attendees) == multiset{} <==> forall i :: 0 <= i < |attendees| ==> attendees[i] == ""
  {
    if attendees != [] {
      NoAddresses(attendees[1..]);
      if attendees[0] == "" {
        assert forall i :: 1 <= i < |attendees| ==> attendees[i] == attendees[1..][i - 1];
        assert forall i :: 0 <= i < |attendees| - 1 ==> attendees[1..][i] == attendees[i + 1];
      } else {
        assert CaseFold(attendees[0]) in Addresses(attendees);
      }
    }
  }

  /** A patched event matches the draft it was patched with exactly when the fields that
      the payload omits were empty before. */
  lemma PatchMatchesExactly(before: EventBody, draft: EventDraft)
    requires ValidDraft(draft)
    ensures Matches(MergePatch(before, GooglePayload(draft)), draft) <==> OmittedFieldsEmpty(before, draft)
  {
    NoAddresses(before.attendees);
    assert Addresses([]) == multiset{};
  }

  /** A freshly inserted event always matches its own draft. */
  lemma InsertMatches(draft: EventDraft)
    requires ValidDraft(draft)
    ensures Matches(FreshBody(GooglePayload(draft)), draft)
  {
  }

  /** An event matches a draft exactly if it shows what a fresh insert of the draft would show:
      the same texts, the same times and the same addresses. */
  lemma MatchesMeansShowingTheDraft(remote: EventBody, draft: EventDraft)
    requires ValidDraft(draft)
    ensures Matches(remote, draft) <==>
              && remote.summary == Some(draft.summary)
              && OrNone(remote.description) == OrNone(draft.description)
              && OrNone(remote.location) == OrNone(draft.location)
              && remote.start == TimeField(Some(draft.start), None, OrNone(draft.timeZone))
              && remote.end == TimeField(Some(draft.end), None, OrNone(draft.timeZone))
              && forall address :: Mentions(remote.attendees, address) == Mentions(draft.attendees, address)
  {
    SameAddresses(remote.attendees, draft.attendees);
    hide Addresses, Mentions;
    assert GooglePayload(draft).attendees.GetOr([]) == draft.attendees;
  }

  lemma SameAddresses(xs: seq<string>, ys: seq<string>)
    ensures Addresses(xs) == Addresses(ys) <==> forall address :: Mentions(xs, address) == Mentions(ys, address)
  {
    forall address
      ensures Addresses(xs)[address] == Mentions(xs, address) && Addresses(ys)[address] == Mentions(ys, address)
    {
      AddressesAreMentions(xs, address);
      AddressesAreMentions(ys, address);
    }
    hide Addresses, Mentions;
    if Addresses(xs) != Addresses(ys) {
      var address :| address in Addresses(xs) - Addresses(ys) || address in Addresses(ys) - Addresses(xs);
      assert Mentions(xs, address) != Mentions(ys, address);
    }
  }

  /** How many attendees have this address, ignoring the case of its letters. */
  ghost function Mentions(attendees: seq<string>, address: string): nat {
    if attendees == [] then 0
    else
      var last := attendees[|attendees| - 1];
      Mentions(attendees[..|attendees| - 1], address) + if last != "" && CaseFold(last) == address then 1 else 0
  }

  lemma {:induction false} MentionsFirst(attendees: seq<string>, address: string)
    requires attendees != []
    ensures Mentions(attendees, address) ==
              (if attendees[0] != "" && CaseFold(attendees[0]) == address then 1 else 0) + Mentions(attendees[1..], address)
  {
    if |attendees| > 1 {
      MentionsFirst(attendees[..|attendees| - 1], address);
      assert attendees[..|attendees| - 1][1..] == attendees[1..][..|attendees| - 2];
    }
  }

  lemma {:induction false} AddressesAreMentions(attendees: seq<string>, address: string)
    ensures Addresses(attendees)[address] == Mentions(attendees, address)
  {
    if attendees != [] {
      AddressesAreMentions(attendees[1..], address);
      MentionsFirst(attendees, address);
    }
  }

  /** The instants between which an event occupies the calendar. */
  function Instant(field: TimeField): int {
    if field.dateTime.Some? then field.dateTime.value else field.date.GetOr(0)
  }

  /** The test of the event listing: the event ends after `start` and begins before `end`. */
  predicate Overlaps(body: EventBody, start: int, end: int) {
    Instant(body.start) < end && start < Instant(body.end)
  }

  /** The instant `x` lies in the span from `start` up to `end`. */
  predicate Within(x: int, start: int, end: int) {
    start <= x < end
  }

  /** Two spans that are not empty overlap exactly if they have an instant in common. */
  lemma OverlapsMeansCommonInstant(body: EventBody, start: int, end: int)
    requires Instant(body.start) < Instant(body.end) && start < end
    ensures Overlaps(body, start, end) <==>
              exists x :: Within(x, start, end) && Within(x, Instant(body.start), Instant(body.end))
  {
    if Overlaps(body, start, end) {
      var x := if start < Instant(body.start) then Instant(body.start) else start;
      assert Within(x, start, end) && Within(x, Instant(body.start), Instant(body.end));
    }
  }

  predicate Opaque(body: EventBody) {
    !body.transparent && !body.cancelled
  }

  lemma PatchedTimes(before: EventBody, draft: EventDraft)
    ensures var merged := MergePatch(before, GooglePayload(draft));
            Instant(merged.start) == draft.start && Instant(merged.end) == draft.end && Opaque(merged) == Opaque(before)
  {
  }
}
