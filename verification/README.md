# Mail agent gateway: model and proofs

This project models the stateful core of the mail agent gateway and proves what its operations
keep over whole runs. It consists of five parts.

* **Calendar executions** (`CalendarEvents`, `CalendarApprovals`, `CalendarProtocol`,
  `CalendarSafety`, `CalendarConsent`, `CalendarService`, `CalendarSerial`). The approval queue drives a remote
  calendar that can lose responses and apply requests late or twice. `CalendarProtocol` is the
  state machine of single steps: claim, conflict check, read, send, server applies, respond,
  complete or fail, crash, restart, edits by other clients. `CalendarService` is the service's own
  code, and `CalendarSerial` shows that it is a run of that machine.
* **Mail approvals and drafts** (`MailTables`, `MailServices`, `MailLifecycle`, `MailSafety`,
  `MailConsent`). Two linked tables edited by about twelve transactions; runs with crashes between transactions.
* **Free slots and alternatives** (`StableSort`, `FreeSlots`, `SlotProperties`, `Alternatives`).
* **Work queue and agent cycle** (`WorkQueue`, `QueueProperties`, `QueueRuns`).
* **Derived state** (`CloudSync`, `SyncProperties`, `BusinessDays`, `Conversations`,
  `SenderPatterns`).

Each SQL transaction is one atomic step; each store is a class whose methods are proved equal to a
function of the old state, and the results about runs are lemmas about these functions. In the state
machines a step that is not enabled changes nothing, so a run is any sequence of steps.
`dafny verify dfyconfig.toml` checks everything. Nothing was executed.

## Where the code and its documentation differ

The code is what is modelled. Gateway files are named relative to `apps/gateway/mail_agent_gateway/`.

* docs/ARCHITECTURE.md:122-125 and docs/SECURITY.md:96-97 say that a retried create reconciles the event
  whose response was lost. The conflict check of the retry meets that very event
  (calendar_reliable.py:457-464), so this holds if the owner allowed conflicts or the
  check overlooks that event (`CreateRetryReconcilesExactly`).
* docs/ARCHITECTURE.md:130-132 says that an update retry reconciles a reached target. The comparison
  demands that omitted fields be absent while the patch keeps them, so it holds exactly when they
  were empty before (`PatchMatchesExactly`, `UpdateRetryAfterLostResponse`).
* docs/SECURITY.md:91-92 says that overlapping opaque events are conflicts. The listing holds the 50 earliest
  overlapping events, so the check misses a conflict exactly when 50 harmless events can be listed before
  the earliest one; and a create is not checked against the event it names (`ConflictCheckFailsExactly`,
  `CreateKeepsDisjointExactly`).
* Rounding can start a slot up to a minute before `time_min` (`EarlyStartsExactly`,
  `HalfMinutePastNineStartsEarly`).
* draft_lifecycle_v171.py:8 calls discarded drafts terminal. This holds exactly for drafts that are linked or
  name no source message (`DiscardedIsTerminalExactly`, `DiscardedDraftCanBeSubmitted`).
* The alternatives around a busy target are chosen from the 50 earliest free slots of the day, so a nearer
  free slot can be missed (`FirstOfTheDayIsNearestExactly`, `LateTargetMissesNearStarts`).
* conversation_store.py:239-240 says that replaying a send never restarts the clock. This holds exactly
  when the send has a source id or the row has no last message id (`ReplayIsIgnoredExactly`,
  `ReplayWithoutSourcePostpones`); a send without source id is accepted but not
  produced: the one caller, main.py:1314, passes the message id of an executed reply, which action_executor.py:119-120
  requires to be non-empty.
* Deadlines are not monotone in the start across a weekend (`MonotoneInStartExactly`, `WeekendBreaksMonotonicity`).
* A Graph page applies removals before additions (`PagedIsLastWriteExactly`), and a full Gmail sync
  keeps rows that have left the inbox (`FullMirrorsExactly`).
* A sender pattern threshold of exactly one half, which the settings allow, lets the immediate and the
  batch suggestion disagree, exactly in a tie (`AgreementExactly`, `HalfThresholdCanDisagree`).

## Model

| member | source | states |
|---|---|---|
| CalendarEvents.BuildGooglePayload | apps/gateway/mail_agent_gateway/calendar_service.py:88-105 | The payload holds the draft's own title, times, zone, description, place and guests, each under its own key; empty text and an empty guest list are not mentioned. |
| CalendarEvents.PatchMatchesExactly | apps/gateway/mail_agent_gateway/calendar_reliable.py:245-259 | Sending a draft as a merge patch and comparing the result with the draft succeeds if and only if every optional field the payload leaves out was empty on the old event. |
| CalendarEvents.InsertMatches | apps/gateway/mail_agent_gateway/calendar_reliable.py:245-259 | A freshly inserted event always compares equal to its own draft. |
| CalendarEvents.MatchesMeansShowingTheDraft | apps/gateway/mail_agent_gateway/calendar_reliable.py:245-259 | An event matches a draft if and only if it shows the same title, texts and times and mentions the same addresses equally often, ignoring case. |
| CalendarEvents.OverlapsMeansCommonInstant | apps/gateway/mail_agent_gateway/calendar_reliable.py:286-291 | Two spans that are not empty overlap in the listing's sense exactly when they have an instant in common. |
| CalendarApprovals.CalendarApprovalStore.Enqueue | apps/gateway/mail_agent_gateway/calendar_service.py:202-219 | A new row is pending and not executable; no other row changes; an existing id is refused. |
| CalendarApprovals.CalendarApprovalStore.Decide | apps/gateway/mail_agent_gateway/calendar_service.py:239-259 | Exactly a pending row can be decided; approval makes it approved and ready, refusal rejected and not executable. |
| CalendarApprovals.CalendarApprovalStore.Claim | apps/gateway/mail_agent_gateway/calendar_service.py:261-286 | Exactly an approved row that is ready or failed becomes executing; a completed one is returned as it is; any other is refused. |
| CalendarApprovals.CalendarApprovalStore.Complete | apps/gateway/mail_agent_gateway/calendar_service.py:288-301 | Only an executing row completes, and then it holds the result and no error. |
| CalendarApprovals.CalendarApprovalStore.Fail | apps/gateway/mail_agent_gateway/calendar_service.py:303-313 | Only an executing row fails; recording a failure for any other row changes nothing. |
| CalendarApprovals.CalendarApprovalStore.RecoverStaleExecutions | apps/gateway/mail_agent_gateway/calendar_reliable.py:92-108 | Start-up turns exactly the executing rows into retryable failures and counts them. |
| CalendarApprovals.RunsKeepRowsConsistent | apps/gateway/mail_agent_gateway/calendar_service.py:202-313 | In every run a row has a result exactly when completed, an error exactly when failed, and an execution state exactly when approved. |
| CalendarApprovals.RunsFreezeProposals | apps/gateway/mail_agent_gateway/calendar_service.py:202-313 | In every run a stored proposal never changes, a decision is never revised, and a completed row never changes again. |
| CalendarApprovals.ClaimsBalanceFailures | apps/gateway/mail_agent_gateway/calendar_service.py:261-313 | Conservation law: executions started plus those held at the start equal failures recorded (recovery included) plus those held at the end. |
| CalendarApprovals.AttemptsAtMostFailuresPlusOne | apps/gateway/mail_agent_gateway/calendar_reliable.py:92-108 | From an empty queue the attempts for a row never exceed its recorded failures plus one. |
| CalendarApprovals.ExecutionsNeverOverlap | apps/gateway/mail_agent_gateway/calendar_service.py:261-286 | Between two granted claims of the same row a failure of that row is recorded: executions never overlap. |
| CalendarApprovals.OwnerDecides | apps/gateway/mail_agent_gateway/calendar_service.py:239-259 | In every run a row is approved if and only if the owner approved it while it was pending, and rejected if and only if the owner refused it then. |
| CalendarApprovals.ClaimableExactly | apps/gateway/mail_agent_gateway/calendar_service.py:261-286 | In every run a row can be claimed if and only if the owner approved it and it is neither executing nor completed; a recorded failure leaves it claimable with its error. |
| CalendarApprovals.RefusedIsNeverExecuted | apps/gateway/mail_agent_gateway/calendar_service.py:250-286 | A row the owner refused is never executed in any run. |
| CalendarApprovals.ResultIsTheReportedOne | apps/gateway/mail_agent_gateway/calendar_service.py:288-301 | A row is completed with a result if and only if an execution in progress reported that result. |
| CalendarApprovals.RowsShowTheFirstProposal | apps/gateway/mail_agent_gateway/calendar_service.py:202-219 | A row exists if and only if its id was enqueued, and shows the first proposal enqueued for it. |
| CalendarSafety.RunsAreWired | apps/gateway/mail_agent_gateway/calendar_reliable.py:443-612 | In every run with crashes, lost responses and late or repeated deliveries, every request ever sent belongs to an approved row, aims at that row's event, carries its approved payload and, when an etag was frozen, that etag as its condition. |
| CalendarSafety.AtMostOneFrozenWrite | apps/gateway/mail_agent_gateway/calendar_reliable.py:321-329 | Of all approved updates and deletions frozen against the same etag of one event, at most one is ever applied, and at most once. |
| CalendarSafety.FrozenWriteMeetsItsVersion | apps/gateway/mail_agent_gateway/calendar_reliable.py:525-583 | A frozen write that changes the calendar, however late it arrives, meets exactly the version the owner saw. |
| CalendarSafety.InsertsBalanceDeletions | apps/gateway/mail_agent_gateway/calendar_reliable.py:466-515 | For every event id, inserts plus initial presence equal deletions plus final presence, in every run. |
| CalendarSafety.AtMostOneEventPerCreate | apps/gateway/mail_agent_gateway/calendar_reliable.py:455-515 | In every run, late requests after a restart included, all events marked with a create approval sit at its one deterministic id; inserts there exceed deletions by at most one. |
| CalendarSafety.CreateIdsDiffer | apps/gateway/mail_agent_gateway/calendar_reliable.py:261-265 | Two create approvals never aim at the same event id. |
| CalendarSafety.DeliveryTouchesOnlyItsTarget | apps/gateway/mail_agent_gateway/calendar_reliable.py:466-500 | A delivered request changes no event but its target, and a create never changes an event that exists, whoever owns it. |
| CalendarSafety.OccupiedIdIsNeverInsertedAgain | apps/gateway/mail_agent_gateway/calendar_reliable.py:469-487 | A create attempt that finds its id taken sends no further insert. |
| CalendarSafety.CompletedMeansAchieved | apps/gateway/mail_agent_gateway/calendar_reliable.py:466-605 | In every run a completed row was approved by the owner, and at some moment of the run the calendar showed what it asks for. |
| CalendarConsent.RunsFollowTheOwner | apps/gateway/mail_agent_gateway/calendar_service.py:239-259 | In every run of the protocol, crashes included, a row is approved if and only if the owner's approval took effect on it while pending, and rejected if and only if a refusal did. |
| CalendarConsent.EveryRequestWasApproved | apps/gateway/mail_agent_gateway/calendar_reliable.py:443-612 | Every request ever sent follows an effective approval of its row, goes to the calendar and event the proposal names (a create to the id derived from the approval), and carries the approved texts and times. |
| CalendarConsent.EveryCompletedRowWasApproved | apps/gateway/mail_agent_gateway/calendar_reliable.py:466-605 | Every completed row follows an effective approval, and its result names the event its proposal is about. |
| CalendarConsent.RefusedNeverReachesTheCalendar | apps/gateway/mail_agent_gateway/calendar_service.py:250-286 | After an effective refusal no request for the row is ever sent, nothing is ever written for it, and it is never executing. |
| CalendarConsent.ExecutionBeginsExactly | apps/gateway/mail_agent_gateway/calendar_reliable.py:443-464 | While the gateway is up an execution begins if and only if the owner approved the row and it is neither executing nor completed; only deletions skip the conflict check. |
| CalendarService.ReliableCalendarService.ConflictsForEvent | apps/gateway/mail_agent_gateway/calendar_reliable.py:277-307 | The conflicts are exactly the listed events that are named, not excluded, not cancelled and not transparent, in listing order. |
| CalendarService.ReliableCalendarService.ProposeChecked | apps/gateway/mail_agent_gateway/calendar_reliable.py:309-364 | A proposal is stored only if its target exists and no conflict blocks it; an update or deletion is frozen against the etag seen now, a create never is. |
| CalendarService.ReliableCalendarService.PerformCreate | apps/gateway/mail_agent_gateway/calendar_reliable.py:466-524 | A create inserts its marked, matching event only under its free id and otherwise completes only on its own marked, matching event, also when the id was taken between the read and the insert (status 409). |
| CalendarService.ReliableCalendarService.PerformUpdate | apps/gateway/mail_agent_gateway/calendar_reliable.py:525-557 | An update of a missing event fails; a frozen one of a changed event completes only if that already shows the draft; otherwise it stores exactly the draft's values under the etag it read and never replaces another version. |
| CalendarService.ReliableCalendarService.PerformDelete | apps/gateway/mail_agent_gateway/calendar_reliable.py:558-591 | A deletion of a missing event counts as done; a changed event is refused; otherwise exactly the named event goes, and never another version than the one read. |
| CalendarService.ReliableCalendarService.Execute | apps/gateway/mail_agent_gateway/calendar_reliable.py:443-612 | One call ends with the row completed or failed, never executing, and with the calendar changed as the protocol allows, for every network fault and whatever others did to the calendar between its read and its write. |
| CalendarSerial.SerialIsARun | apps/gateway/mail_agent_gateway/calendar_reliable.py:443-612 | A whole execution is one of the runs of the step protocol, so everything proved of runs holds of it. |
| CalendarSerial.SerialOutcome | apps/gateway/mail_agent_gateway/calendar_reliable.py:443-612 | The protocol's steps, taken without interruption, end exactly as the service method does when nobody else touches the calendar. |
| CalendarSerial.ConflictCheckIsExact | apps/gateway/mail_agent_gateway/calendar_reliable.py:277-307 | With fewer than 50 harmless events at or before the earliest conflict, the check reports a conflict if and only if another opaque event overlaps. |
| CalendarSerial.BlockedExactly | apps/gateway/mail_agent_gateway/calendar_reliable.py:455-464 | The check stops a create or update exactly when the owner did not allow conflicts and the listing shows an event that is neither the named one nor cancelled nor transparent. |
| CalendarSerial.ConflictCheckFailsExactly | apps/gateway/mail_agent_gateway/calendar_reliable.py:286-298 | For every listing the provider may give, earliest events first, the check is exact if and only if there is no conflict or fewer than 50 transparent or excluded events start at or before the earliest one. |
| CalendarSerial.EarlierConflictIsReported | connectors/google/mail_agent_google/calendar.py:77-99 | A conflict that starts before every harmless event is always reported, however many of those there are. |
| CalendarSerial.SerialRunsKeepDisjoint | apps/gateway/mail_agent_gateway/calendar_reliable.py:455-557 | Any serial sequence of executions without conflict override, with any faults, keeps the opaque events of each calendar pairwise disjoint, outside the two cases in which the check fails. |
| CalendarSerial.CreateKeepsDisjointExactly | apps/gateway/mail_agent_gateway/calendar_reliable.py:455-500 | A checked create keeps opaque events disjoint if and only if it names no event that it overlaps. |
| CalendarSerial.NamedCreateEscapesTheCheck | apps/gateway/mail_agent_gateway/calendar_reliable.py:457-462 | A create proposal that names an event is not checked against that event and can overlap it. |
| CalendarSerial.FullListingHidesAConflict | apps/gateway/mail_agent_gateway/calendar_reliable.py:286-291 | Fifty transparent events fill the listing and hide a real conflict. |
| CalendarSerial.CreateRetryAfterLostResponse | apps/gateway/mail_agent_gateway/calendar_reliable.py:455-515 | After a lost response the retry of a create never inserts again; it reconciles unless the conflict check stops it, which it never does under an override and always does otherwise while the check is exact. |
| CalendarSerial.CreateRetryReconcilesExactly | apps/gateway/mail_agent_gateway/calendar_reliable.py:455-515 | Some retry reconciles if and only if the owner allowed conflicts or 50 harmless events start no later than every conflict. |
| CalendarSerial.CollisionReconcilesExactly | apps/gateway/mail_agent_gateway/calendar_reliable.py:494-515 | A create whose id was taken between its read and its insert completes exactly when the event there is its own, as after an earlier request that arrived late, and never overwrites it. |
| CalendarSerial.UpdateRetryAfterLostResponse | apps/gateway/mail_agent_gateway/calendar_reliable.py:525-557 | After a lost response the retry of a frozen update sends nothing, and reconciles exactly when the fields omitted by the payload were empty before. |
| CalendarSerial.DeleteRetryAfterLostResponse | apps/gateway/mail_agent_gateway/calendar_reliable.py:558-591 | A deletion whose response was lost has removed exactly the named event; its retry sends nothing and completes. |
| StableSort.SortByIsSort | apps/gateway/mail_agent_gateway/calendar_reliable.py:392 | Sorting gives an ordered permutation of the input. |
| StableSort.SortByIsStable | apps/gateway/mail_agent_gateway/calendar_reliable.py:392 | Elements with equal keys keep their order. |
| FreeSlots.CollectBusy | apps/gateway/mail_agent_gateway/calendar_reliable.py:385-392 | The collected busy list holds every returned interval, widened by the buffer on both sides, in order of its start. |
| FreeSlots.FindFreeSlots | apps/gateway/mail_agent_gateway/calendar_reliable.py:394-432 | The walk over days and grid ends and returns exactly the first `max_results` free candidates of the whole grid, which `FreeStartsAreExact` characterises without rounding or loops. |
| FreeSlots.ScanDay | apps/gateway/mail_agent_gateway/calendar_reliable.py:405-431 | The inner loop adds the free candidates of one day, in order, until the cap is reached. |
| SlotProperties.FreeStartsAreExact | apps/gateway/mail_agent_gateway/calendar_reliable.py:402-431 | A start is free exactly when it is an aligned minute not before the workday and the truncated window start, lies on an allowed weekday, fits workday and window, and stays a buffer away from every interval any calendar returned; starts strictly increase. |
| SlotProperties.RoundingIsNextAligned | apps/gateway/mail_agent_gateway/calendar_reliable.py:408-412 | Rounding gives a whole minute: the first one, counted on from the minute of the hour, that is a multiple of the step; no earlier one is. |
| SlotProperties.FoundSlotsAreTheEarliest | apps/gateway/mail_agent_gateway/calendar_reliable.py:402-432 | The finder returns only free, aligned starts that fit, in increasing order, and leaves one out only if its answer is full and all returned ones are earlier. |
| SlotProperties.WeekdayFollowsTheCalendar | apps/gateway/mail_agent_gateway/calendar_reliable.py:404 | Weekdays count from Monday and follow the calendar from Thursday, 1 January 1970. |
| SlotProperties.FreeMeansBuffered | apps/gateway/mail_agent_gateway/calendar_reliable.py:385-420 | Avoiding the widened, sorted intervals is the same as keeping the buffer from each interval the provider returned. |
| SlotProperties.SlotsLieInWindow | apps/gateway/mail_agent_gateway/calendar_reliable.py:402-431 | Every slot lies inside the workday of its allowed weekday, ends by `time_max` and starts less than a minute before `time_min` at worst. |
| SlotProperties.Rounding | apps/gateway/mail_agent_gateway/calendar_reliable.py:407-412 | Rounding moves a time back only when its minute is step-aligned and its seconds are not zero, and then only by these seconds. |
| SlotProperties.EarlyStartsExactly | apps/gateway/mail_agent_gateway/calendar_reliable.py:407-412 | Some slot starts before `time_min` if and only if the window starts inside an allowed workday on a step-aligned minute with non-zero seconds and that minute is free and fits. |
| SlotProperties.HalfMinutePastNineStartsEarly | apps/gateway/mail_agent_gateway/calendar_reliable.py:407-412 | A window from 09:00:30 offers a slot at 09:00:00. |
| SlotProperties.TakeKeepsEarliest | apps/gateway/mail_agent_gateway/calendar_reliable.py:403-430 | A free start that the cap leaves out is later than all returned ones. |
| Alternatives.PickAlternatives | apps/gateway/mail_agent_gateway/calendar_concierge_v171.py:157-170 | The selection loop keeps candidates in order of distance, skips clashes and stops at three. |
| Alternatives.AlternativesAreNearest | apps/gateway/mail_agent_gateway/calendar_concierge_v171.py:157-170 | At most three alternatives, pairwise a duration apart and nearest first; every other free slot clashes with a kept one at least as near, or comes after three such. |
| Alternatives.FirstAlternativeIsNearest | apps/gateway/mail_agent_gateway/calendar_concierge_v171.py:157-170 | If the search returned any slot, the first alternative is a nearest one of those returned. |
| Alternatives.FirstOfTheDayIsNearestExactly | apps/gateway/mail_agent_gateway/calendar_concierge_v171.py:143-170 | The first alternative is nearest among all free starts of the day if and only if the capped search returned a nearest one; with at most 50 free starts it always is. |
| Alternatives.SameDayAlternatives | apps/gateway/mail_agent_gateway/calendar_concierge_v171.py:139-170 | The alternatives offered for a busy target are chosen among the first 50 free slots of the target's own day, pairwise a duration apart. |
| Alternatives.SameDayCandidatesExactly | apps/gateway/mail_agent_gateway/calendar_concierge_v171.py:139-156 | The slots searched around a target are exactly those of its own day that start on a quarter of an hour and lie inside the working hours. |
| Alternatives.LateTargetMissesNearStarts | apps/gateway/mail_agent_gateway/calendar_concierge_v171.py:143-156 | With working hours from 06:00 to 22:00 and a target at 21:00, 20:00 is free and never offered. |
| MailTables.MailStore.EnqueueApproval | apps/gateway/mail_agent_gateway/mail_store.py:642-670 | A new approval is pending and shows the proposal; nothing else changes. |
| MailTables.MailStore.CreateDraft | apps/gateway/mail_agent_gateway/mail_store.py:672-709 | A draft without approval is open, one with an approval waits for it; a proposal without text is refused. |
| MailTables.MailStore.UpdateDraft | apps/gateway/mail_agent_gateway/mail_store.py:751-793 | Editing stores the saved texts in draft and pending approval in one transaction and raises the revision; a sent draft, a decided approval, another scope or another action is refused. |
| MailTables.MailStore.LinkDraftApproval | apps/gateway/mail_agent_gateway/mail_store.py:795-812 | Only an unsent, unlinked draft is linked. |
| MailTables.MailStore.DecideApproval | apps/gateway/mail_agent_gateway/mail_store.py:830-863 | Exactly a pending approval is decided; approval makes an executable action ready; rejection reopens and unlinks exactly the drafts that wait for it in the same transaction. |
| MailTables.MailStore.ClaimApprovalExecution | apps/gateway/mail_agent_gateway/mail_store.py:865-890 | Only an approved row that is ready or failed becomes executing; a finished one is returned unchanged. |
| MailTables.MailStore.CompleteApprovalExecution | apps/gateway/mail_agent_gateway/mail_store.py:892-915 | Recording a send marks the linked drafts sent in the same transaction. |
| MailTables.MailStore.FailApprovalExecution | apps/gateway/mail_agent_gateway/mail_store.py:917-930 | Only an executing row becomes failed. |
| MailTables.MailStore.DiscardDraft | apps/gateway/mail_agent_gateway/draft_lifecycle_v171.py:34-96 | Discarding rejects a pending approval in the same transaction and refuses sent drafts and decided approvals. |
| MailTables.MailStore.RecoverStaleExecutions | apps/gateway/mail_agent_gateway/recovery.py:47-100 | An interrupted send becomes uncertain, any other interrupted action may be retried. |
| MailTables.MailStore.ReconcileUncertain | apps/gateway/mail_agent_gateway/recovery.py:102-144 | Only the owner settles an uncertain send, as sent together with its draft, or as ready again. |
| MailServices.DraftService.Edit | apps/gateway/mail_agent_gateway/draft_service.py:46-117 | An edit that cannot find the sender of its reply, or would redirect it, changes nothing; any other reaches draft and pending approval. |
| MailServices.DraftService.SubmitForApproval | apps/gateway/mail_agent_gateway/draft_service.py:119-180 | Submitting updates, enqueues and links in this order; a linked draft is never submitted twice. |
| MailServices.SubmittedRepliesGoToSender | apps/gateway/mail_agent_gateway/draft_service.py:119-180 | Exactly when a draft can be submitted and for what: an intended forward stays a forward, an intended reply a reply, any other is a reply if and only if addressed to its sender; a reply goes to that sender, in the scope and with the text of the draft. |
| MailServices.EditsKeepScope | apps/gateway/mail_agent_gateway/draft_service.py:46-117 | Exactly when a draft can be edited and what is stored: the given subject and stamped text; action, mailbox and message stay; a reply is never redirected. |
| MailServices.CreateArtifacts | apps/gateway/mail_agent_gateway/agent_runtime.py:446-492 | What needs an approval waits for one with the analysed proposal and is not executed; a direct execution takes place exactly for the reversible actions that are allowed without approval; a draft is created exactly under its guards and waits with the approval. It is the plan shadow mode reports. |
| MailServices.ShadowPredictsLive | apps/gateway/mail_agent_gateway/agent_runtime.py:156-201 | The label a shadow run shows names an artifact if and only if the live run creates one, and the right one. |
| MailServices.ExecuteApproval | apps/gateway/mail_agent_gateway/action_executor.py:60-91 | One call executes a claimable row once and leaves it done exactly when the guards hold and the connector succeeds, and failed otherwise; any other row is untouched. |
| MailServices.ExecuteDirect | apps/gateway/mail_agent_gateway/action_executor.py:93-131 | Without approval only marking read, moving and archiving run; never a mail. |
| MailServices.OnlyApprovalsSend | apps/gateway/mail_agent_gateway/action_executor.py:126-130 | No mail passes the guards outside the execution of an approval. |
| MailLifecycle.CallsKeepLinked | apps/gateway/mail_agent_gateway/mail_store.py:642-930 | Every service call, also one cut between its transactions, keeps drafts and approvals joined. |
| MailSafety.RunsKeepWorld | apps/gateway/mail_agent_gateway/action_executor.py:60-131 | Over all runs with crashes and restarts the tables stay joined, running executions hold approved rows with the approved text, and whatever left the gateway was approved or is a direct mailbox action. |
| MailSafety.SentExactlyWithApproval | apps/gateway/mail_agent_gateway/mail_store.py:830-930 | In every reachable state a draft is sent exactly when the approval it is linked to was sent; an open draft is unlinked; a waiting one has a pending or approved unsent approval; links are injective and both sides show the same proposal. |
| MailSafety.RunsFreezeDecided | apps/gateway/mail_agent_gateway/mail_store.py:751-863 | Once decided, an approval keeps decision and proposal in every run. |
| MailSafety.DeliveredIsWhatWasApproved | apps/gateway/mail_agent_gateway/action_executor.py:60-91 | What leaves the gateway is the proposal stored at the moment the owner approved it, and what the linked draft still shows. |
| MailSafety.OutboxIsApprovedOrDirect | apps/gateway/mail_agent_gateway/action_executor.py:60-131 | Whatever leaves the gateway was approved with exactly this proposal, or marks read, moves or archives without one. |
| MailSafety.EverySentMailWasApproved | apps/gateway/mail_agent_gateway/action_executor.py:108-156 | Every mail sent and every deletion was approved; a mail has a recipient and a text, and a reply goes to the sender of its source. |
| MailSafety.RecordedMeansDelivered | apps/gateway/mail_agent_gateway/mail_store.py:892-915 | A row is recorded as sent or completed only if its delivery took place or the owner confirmed it. |
| MailSafety.StartsBalanceReleases | apps/gateway/mail_agent_gateway/mail_store.py:865-930 | Conservation law: executions started plus held at the start equal releases (failure, restart of a non-sending action, owner's retry) plus held at the end. |
| MailSafety.ExecutionsNeverOverlap | apps/gateway/mail_agent_gateway/mail_store.py:865-890 | No execution of an approval starts while one is running, and only approved rows start. |
| MailSafety.DeliveriesAtMostReleasesPlusOne | apps/gateway/mail_agent_gateway/recovery.py:47-100 | An approval is delivered at most once more than it was released; a crash alone never makes a mail go out twice. |
| MailSafety.SettledIsAbsorbing | apps/gateway/mail_agent_gateway/mail_store.py:865-930 | Sent and completed are final in every run. |
| MailSafety.DiscardRejectsPending | apps/gateway/mail_agent_gateway/draft_lifecycle_v171.py:44-84 | A draft can be discarded exactly when it is unsent and its approval, if any, is not approved; afterwards that approval is rejected. |
| MailSafety.SubmissionRevivesExactly | apps/gateway/mail_agent_gateway/draft_service.py:119-180 | A submission brings a discarded draft back if and only if the draft is unlinked, names its source message, that is stored, and a forward has a recipient. |
| MailSafety.DiscardedIsTerminalExactly | apps/gateway/mail_agent_gateway/draft_lifecycle_v171.py:8 | Discarding is final in every run if and only if the draft is linked or names no source message. |
| MailSafety.DiscardedWithoutSourceIsTerminal | apps/gateway/mail_agent_gateway/draft_service.py:127-132 | A discarded draft whose source message is not stored at any of its submissions stays discarded. |
| MailSafety.DiscardedDraftCanBeSubmitted | apps/gateway/mail_agent_gateway/draft_service.py:119-180 | A reply draft that was discarded before anybody submitted it can be submitted after all. |
| MailConsent.RunsFollowTheOwner | apps/gateway/mail_agent_gateway/mail_store.py:830-863 | In every run an approval is approved if and only if the owner approved it while pending, and rejected if and only if the owner refused it then or its waiting draft was discarded. |
| MailConsent.NothingLeavesWithoutConsent | apps/gateway/mail_agent_gateway/agent_runtime.py:446-466 | In every run a delivery shows the proposal that the owner approved, as stored at that moment, or marks read, moves or archives after an analysis whose verdict allowed it and asked for no approval. |
| MailConsent.RefusedNeverLeaves | apps/gateway/mail_agent_gateway/mail_store.py:830-890 | What the owner refused or discarded while pending never leaves the gateway and is never running. |
| MailConsent.ClaimableExactly | apps/gateway/mail_agent_gateway/mail_store.py:865-890 | An approval can be executed if and only if the owner approved it, its action has an executor, and it is neither executing nor uncertain nor done. |
| MailConsent.AskedMeansWaiting | apps/gateway/mail_agent_gateway/agent_runtime.py:446-492 | An analysis whose verdict asks for an approval delivers nothing and leaves its proposal pending; its draft, if it gets one, is linked and waits too. |
| WorkQueue.AgentWorkQueue.ListPending | apps/gateway/mail_agent_gateway/agent_queue.py:32-55 | Claims the first pending messages in queue order, in this queue's table only. |
| WorkQueue.AgentWorkQueue.ListPendingThreads | apps/gateway/mail_agent_gateway/agent_queue.py:57-103 | Claims whole threads, one after the other, against the table as it stands, in this queue's table only. |
| WorkQueue.AgentWorkQueue.Claim | apps/gateway/mail_agent_gateway/agent_queue.py:105-114 | Every claimed id is running since now; the other queue's table is untouched. |
| WorkQueue.ProcessingStore.RecordAgentProcessing | apps/gateway/mail_agent_gateway/mail_store.py:459-491 | A live result replaces exactly one live row. |
| WorkQueue.ProcessingStore.RecordShadowProcessing | apps/gateway/mail_agent_gateway/mail_store.py:503-535 | A shadow result replaces exactly one shadow row and no live one. |
| WorkQueue.SettleItems | apps/gateway/mail_agent_gateway/agent_runtime.py:1097-1168 | Each id gets the row of the last item that lists it, by the name of its outcome, a raised analysis leaving it failed; processed, ignored and failed items add up. |
| WorkQueue.RunMailbox | apps/gateway/mail_agent_gateway/agent_runtime.py:1085-1168 | One live cycle works on what it claimed, counts each item once and leaves the shadow table alone. |
| WorkQueue.RunShadowMailbox | apps/gateway/mail_agent_gateway/agent_runtime.py:867-943 | A shadow cycle claims and settles in the shadow table only; the live table never changes. |
| QueueProperties.ChosenThreadsAreNewest | apps/gateway/mail_agent_gateway/agent_queue.py:68-79 | The chosen threads are those of highest pending uid, as many as the limit allows, each once, in descending order. |
| QueueProperties.ItemsCoverTheirThreads | apps/gateway/mail_agent_gateway/agent_queue.py:80-102 | With distinct message keys there is one item per chosen thread, shown by its newest pending message, and exactly the pending messages of these threads are claimed. |
| QueueProperties.IdsPartitionClaims | apps/gateway/mail_agent_gateway/agent_queue.py:95-101 | With distinct message keys a message's id is in the list of its own thread, once, exactly when the message is pending. |
| QueueProperties.ListedMessagesAreFirst | apps/gateway/mail_agent_gateway/agent_queue.py:38-52 | The listed messages are the first pending ones: never seen before failed, newer before older, as many as the limit allows. |
| QueueProperties.ListingKeepsPendingCount | apps/gateway/mail_agent_gateway/agent_queue.py:116-128 | Claiming never changes the pending count. |
| QueueProperties.SettleAllAt | apps/gateway/mail_agent_gateway/agent_runtime.py:1127-1162 | A settled id holds the status of an item that lists it; all other rows are untouched. |
| QueueProperties.CycleOutcomeExactly | apps/gateway/mail_agent_gateway/agent_runtime.py:1127-1162 | After a cycle, live or shadow, a claimed id is open for another try if and only if its analysis raised; otherwise it is settled under the name of its outcome. |
| QueueProperties.CycleBalancesPendingCount | apps/gateway/mail_agent_gateway/agent_runtime.py:1085-1170 | Conservation law: the pending count before a cycle is the count after it plus the messages it closed; a message whose analysis raised stays counted. |
| QueueProperties.NothingPendingExactly | apps/gateway/mail_agent_gateway/agent_queue.py:116-128 | The pending count is zero if and only if every message is processed, below confidence or ignored. |
| QueueProperties.KeyIsTheFirstId | apps/gateway/mail_agent_gateway/agent_queue.py:21-23 | A message is known by its provider id, else its Internet id, else its uid in decimal digits; uids give different ids. |
| QueueProperties.TallyCounts | apps/gateway/mail_agent_gateway/agent_runtime.py:1086-1168 | The counters of a cycle are the numbers of its items with each outcome. |
| QueueProperties.CycleLeavesNothingRunning | apps/gateway/mail_agent_gateway/agent_runtime.py:1085-1168 | A cycle leaves no id running that it claimed; what still runs was claimed before by somebody else, less than fifteen minutes ago. |
| QueueRuns.HandedOutAgainOnlyAfterFailure | apps/gateway/mail_agent_gateway/agent_queue.py:25-55 | Over any interleaving of claimers an id is handed out a second time only if its row became an error in between. |
| QueueRuns.SettledIsHandedOutOnlyAfterRecordedFailure | apps/gateway/mail_agent_gateway/agent_queue.py:25-114 | A settled id is handed out again only after somebody recorded a failure for it. |
| QueueRuns.FailureReopens | apps/gateway/mail_agent_gateway/agent_queue.py:25-29 | Right after a recorded failure, or the recovery of a claim older than fifteen minutes, the id is failed and open, unless the recovering claim itself hands it out. |
| QueueRuns.FailedIsTriedAgain | apps/gateway/mail_agent_gateway/agent_queue.py:31-103 | Over any interleaving the next claim hands a failed message out again, unless its result was recorded in between, it is gone, or messages before it fill the limit. |
| QueueRuns.NewMessageIsTaken | apps/gateway/mail_agent_gateway/agent_queue.py:31-103 | Every claim hands out a message that was never seen, unless messages before it fill the limit. |
| CloudSync.MessageStore.UpsertMessages | apps/gateway/mail_agent_gateway/mail_store.py:219-266 | Upserting replaces the provider's columns and keeps the analysis of a known row. |
| CloudSync.MessageStore.DeleteRemoteMessage | apps/gateway/mail_agent_gateway/mail_store.py:430-436 | Exactly the named row goes; the answer says whether it was there. |
| CloudSync.MessageStore.RecordSync | apps/gateway/mail_agent_gateway/mail_store.py:394-414 | A sync without a new cursor keeps the stored one. |
| CloudSync.GoogleGmailSyncService.Partial | apps/gateway/mail_agent_gateway/cloud_sync.py:54-101 | Reads all pages before it writes; any failing fetch leaves messages and cursor as they were; the order of the fetches does not matter. |
| CloudSync.GoogleGmailSyncService.Full | apps/gateway/mail_agent_gateway/cloud_sync.py:33-52 | Writes the listed inbox messages and deletes nothing; a failing fetch changes nothing. |
| CloudSync.NewestHistoryIsLast | apps/gateway/mail_agent_gateway/cloud_sync.py:58-61 | The cursor of a partial sync is that of the last page naming one, or else the stored one. |
| CloudSync.FirstHistoryIsFirst | apps/gateway/mail_agent_gateway/cloud_sync.py:36-44 | The cursor of a full sync comes from the first listed inbox message that names one. |
| CloudSync.GoogleGmailSyncService.Sync | apps/gateway/mail_agent_gateway/cloud_sync.py:21-31 | A full sync runs only without a cursor or after an expired history; a failed sync changes nothing. |
| CloudSync.MicrosoftGraphSyncService.ReadPage | apps/gateway/mail_agent_gateway/cloud_sync.py:117-127 | Removals of a page take effect before its additions. |
| CloudSync.MicrosoftGraphSyncService.Sync | apps/gateway/mail_agent_gateway/cloud_sync.py:108-149 | Pages take effect as they are read; the cursor moves only when the last of at most 100 pages was read. |
| SyncProperties.PartialMirrorsExactly | apps/gateway/mail_agent_gateway/cloud_sync.py:54-101 | After a partial sync the mirror equals the remote inbox if and only if the ids that no record on any history page mentions agreed before and no id reported deleted is in the inbox. |
| SyncProperties.PartialKeepsAnalyses | apps/gateway/mail_agent_gateway/mail_store.py:219-266 | A partial sync keeps the analysis of every surviving row and leaves unmentioned rows alone. |
| SyncProperties.PartialSurvivesInterruption | apps/gateway/mail_agent_gateway/cloud_sync.py:85-89 | A partial sync cut at any point of its deletions and run again ends as an uncut one. |
| SyncProperties.FullMirrorsExactly | apps/gateway/mail_agent_gateway/cloud_sync.py:33-52 | After a full sync over the whole inbox the mirror is exact if and only if no stored row has left the inbox. |
| SyncProperties.FullKeepsStaleRow | apps/gateway/mail_agent_gateway/cloud_sync.py:33-52 | A row that has left the inbox outlives a full sync of an empty inbox. |
| SyncProperties.SyncAppliesPages | apps/gateway/mail_agent_gateway/cloud_sync.py:108-149 | A complete feed is applied page by page and gives the new cursor; one that breaks off leaves the pages read so far and the old cursor. |
| SyncProperties.SyncGivesUpAfterHundredPages | apps/gateway/mail_agent_gateway/cloud_sync.py:115-132 | A feed that goes on after 100 pages fails; what those pages changed stays. |
| SyncProperties.SyncNeedsACursor | apps/gateway/mail_agent_gateway/cloud_sync.py:133-134 | A feed that ends without a cursor fails; what its pages changed stays. |
| SyncProperties.RerunEqualsUncut | apps/gateway/mail_agent_gateway/cloud_sync.py:108-149 | Cutting a delta sync after any number of pages, or within the removals of one, and rerunning it gives the rows of one uncut run, analyses included. |
| SyncProperties.PagesAreIdempotent | apps/gateway/mail_agent_gateway/cloud_sync.py:114-147 | Applying the same pages twice changes nothing. |
| SyncProperties.PagedIsLastWriteExactly | apps/gateway/mail_agent_gateway/cloud_sync.py:118-126 | For each id the mirror is the state of the last write if and only if the last page that mentions the id does not add it and end with its removal. |
| SyncProperties.AddedThenRemovedStays | apps/gateway/mail_agent_gateway/cloud_sync.py:118-126 | A page that adds a message and then removes it leaves the message in the mirror. |
| BusinessDays.AddBusinessDays | apps/gateway/mail_agent_gateway/conversation_store.py:37-47 | The loop ends; no setting gives no deadline; fewer than one day counts as one. |
| BusinessDays.WeekdayFollowsTheCalendar | apps/gateway/mail_agent_gateway/conversation_store.py:37-47 | Weekdays count from Monday and follow the calendar. |
| BusinessDays.DeadlineIsNthWorkday | apps/gateway/mail_agent_gateway/conversation_store.py:37-47 | The deadline is a working day with exactly n working days after the start, and equals n + 2*((w+n)/5) days from a weekday w up to Friday, Saturday and Sunday counted from Friday. |
| BusinessDays.DeadlineIsFirst | apps/gateway/mail_agent_gateway/conversation_store.py:37-47 | No earlier day has n working days after the start. |
| BusinessDays.MonotoneInDays | apps/gateway/mail_agent_gateway/conversation_store.py:37-47 | More days give a strictly later deadline. |
| BusinessDays.MonotoneInStartExactly | apps/gateway/mail_agent_gateway/conversation_store.py:37-47 | A later start gives a later deadline, except exactly when both starts count from the same Friday and the earlier one has the later time of day. |
| BusinessDays.MonotoneFromWorkdays | apps/gateway/mail_agent_gateway/conversation_store.py:37-47 | Between starts on working days the deadline is monotone without exception. |
| BusinessDays.WeekendBreaksMonotonicity | apps/gateway/mail_agent_gateway/conversation_store.py:37-47 | Friday 23:00 is due later than the Saturday after, 01:00. |
| Conversations.ConversationStore.RecordAnalysis | apps/gateway/mail_agent_gateway/conversation_store.py:143-220 | The proposed status is stored, else to-reply or for-information; the deadline is the status's own number of working days, at least one, after the start of waiting; re-analysing the same message with the same result keeps clock, snooze and follow-up, anything else starts afresh. |
| Conversations.ConversationStore.MarkOutboundSent | apps/gateway/mail_agent_gateway/conversation_store.py:222-277 | A recorded send starts the waiting clock with its deadline and ends snooze and follow-up, unless the row already shows that send; then nothing changes. |
| Conversations.ConversationStore.Snooze | apps/gateway/mail_agent_gateway/conversation_store.py:328-342 | Only a future time snoozes; clock and follow-up are untouched. |
| Conversations.ConversationStore.MarkFollowupDraft | apps/gateway/mail_agent_gateway/conversation_store.py:357-362 | Only the follow-up draft of the thread changes. |
| Conversations.EventsSetClocks | apps/gateway/mail_agent_gateway/conversation_store.py:143-277 | With fixed day settings every stored row is due the set number of business days after it started to wait. |
| Conversations.RepeatsKeepTheClock | apps/gateway/mail_agent_gateway/conversation_store.py:143-277 | Over any sequence of repeated analyses and replayed sends with a source id, waiting time, due time, snooze and follow-up never move. |
| Conversations.ReplayIsIgnoredExactly | apps/gateway/mail_agent_gateway/conversation_store.py:239-246 | A replayed send is ignored if and only if it has a source id or the row had no last message id. |
| Conversations.ReplayWithoutSourcePostpones | apps/gateway/mail_agent_gateway/conversation_store.py:239-257 | A replay without a source id postpones the deadline of a thread that has a last message. |
| Conversations.NewMessageRestartsTheClock | apps/gateway/mail_agent_gateway/conversation_store.py:164-181 | A new message ends snooze and follow-up and restarts the clock of a waiting thread. |
| Conversations.ReconcileFollowups | apps/gateway/mail_agent_gateway/agent_runtime.py:1004-1042 | One follow-up cycle reads the due threads with the earliest deadlines, as many as the limit allows, marks the created drafts and counts them. |
| Conversations.MarkedExactly | apps/gateway/mail_agent_gateway/agent_runtime.py:1020-1042 | A cycle gives a draft to every due thread that waits without one, and changes no other row. |
| Conversations.FollowupsAreDue | apps/gateway/mail_agent_gateway/conversation_store.py:344-355 | Nobody is reminded before the deadline or during a snooze. |
| Conversations.DueFollowupsAreEarliest | apps/gateway/mail_agent_gateway/conversation_store.py:344-355 | The follow-ups listed are due threads, each once, by ascending deadline; a due thread is left out only if the limit (1 to 200) is reached by threads due no later. |
| Conversations.EarliestGetDrafts | apps/gateway/mail_agent_gateway/agent_runtime.py:1004-1042 | Every thread that waits for a reply, is due, is not snoozed and has no follow-up gets its draft when drafting succeeds, unless the limit went to threads due no later. |
| Conversations.DraftsAreCounted | apps/gateway/mail_agent_gateway/agent_runtime.py:1019-1042 | The count a cycle returns is the number of threads that got a draft. |
| Conversations.PicksOnlyDueThreads | apps/gateway/mail_agent_gateway/agent_runtime.py:1013-1022 | A thread is picked for a follow-up only when the set business days have passed since it began to wait and no snooze runs. |
| Conversations.PicksExactly | apps/gateway/mail_agent_gateway/agent_runtime.py:1013-1022 | A thread is picked if and only if it waits for a reply, its deadline has passed, no snooze runs and it has no follow-up draft. |
| Conversations.NextCycleCreatesNothing | apps/gateway/mail_agent_gateway/agent_runtime.py:1020-1042 | The next cycle creates no draft for a thread that got one. |
| Conversations.OneDraftPerEpisode | apps/gateway/mail_agent_gateway/agent_runtime.py:1004-1042 | Without overlapping cycles automatic drafts never exceed the episodes of waiting for a reply, over all runs. |
| Conversations.EpisodesAreClockRestarts | apps/gateway/mail_agent_gateway/conversation_store.py:161-181 | While a thread waits for a reply, an event begins an episode exactly when it moves the waiting clock; any other leaves clock and follow-up draft alone. |
| Conversations.DraftsAreBounded | apps/gateway/mail_agent_gateway/agent_runtime.py:1004-1042 | In every run the automatic drafts are at most one for the current episode, one for each that begins and one for each pick that overlaps another cycle. |
| Conversations.OverlappingCyclesCreateTwo | apps/gateway/mail_agent_gateway/agent_runtime.py:1004-1042 | Two overlapping cycles do create two drafts in one episode, so the bound is reached. |
| SenderPatterns.PatternStore.RecordSenderObservation | apps/gateway/mail_agent_gateway/conversation_store.py:364-420 | Only the first observation of a message counts, and only it can return a suggestion. |
| SenderPatterns.PatternStore.ListPatternSuggestions | apps/gateway/mail_agent_gateway/conversation_store.py:422-464 | The batch listing evaluates every observed sender. |
| SenderPatterns.PatternStore.DecidePattern | apps/gateway/mail_agent_gateway/conversation_store.py:466-477 | A decision concerns one sender and one category and replaces an earlier one. |
| SenderPatterns.RecordMatchesListing | apps/gateway/mail_agent_gateway/conversation_store.py:364-464 | With a threshold above one half a new observation returns a suggestion exactly when the listing right after contains that sender with that category, and the same entry, in whatever order the database groups. |
| SenderPatterns.AgreementExactly | apps/gateway/mail_agent_gateway/conversation_store.py:384-410 | For every threshold from one half on, the two queries agree in all orders of the groups unless the threshold is one half, another category ties with the observed one at exactly half of the samples, and nothing else stops the suggestion. |
| SenderPatterns.HalfThresholdCanDisagree | apps/gateway/mail_agent_gateway/conversation_store.py:384-390 | Two against two observations at a threshold of one half: the two queries disagree. |
| SenderPatterns.ListingIsOrdered | apps/gateway/mail_agent_gateway/conversation_store.py:464 | The listing has at most one entry per sender, by descending confidence and then by descending number of samples. |
| SenderPatterns.ListingMembers | apps/gateway/mail_agent_gateway/conversation_store.py:434-463 | The listing holds exactly the suggestions that the observations of a sender make. |
| SenderPatterns.SuggestionsHaveEvidence | apps/gateway/mail_agent_gateway/conversation_store.py:397-420 | A suggestion reports the counted observations: enough of them, a share that reaches the threshold, no category with more, no public domain and no earlier decision. |
| SenderPatterns.SuggestedExactlyOnEvidence | apps/gateway/mail_agent_gateway/conversation_store.py:434-463 | With a threshold above one half a category is suggested for a sender if and only if that evidence is there. |
| SenderPatterns.RoundedIsNearest | apps/gateway/mail_agent_gateway/conversation_store.py:461 | The confidence shown is the share rounded to the nearest four decimals. |
| SenderPatterns.DomainFollowsLastAt | apps/gateway/mail_agent_gateway/conversation_store.py:434 | The domain of an address is what follows its last at sign. |
| SenderPatterns.RepeatedObservationChangesNothing | apps/gateway/mail_agent_gateway/conversation_store.py:381-386 | Observing a message again changes no count and returns nothing. |
| SenderPatterns.RunsCountMessagesOnce | apps/gateway/mail_agent_gateway/conversation_store.py:381-386 | In every run each message is counted at most once. |
| SenderPatterns.DecidedIsNeverSuggestedAgain | apps/gateway/mail_agent_gateway/conversation_store.py:409-477 | Once the owner decided on a pattern, no later listing or observation suggests it again. |

## Left out

- CalendarProtocol.RemoteCreateId: the truncated SHA-256 digest is modelled as an injective function; `remote_create_id` in a proposal is not modelled because no caller sets it.
- CalendarProtocol.Handle: a deleted event disappears; the provider's tombstones with status cancelled, `sendUpdates` and attendee replies are not modelled.
- CalendarService.ReliableCalendarService.Execute: the scope and writable-calendar checks are part of the fault `Unreachable`.
- CalendarService.ReliableCalendarService.ProposeChecked: a change of the calendar between its own reads appears only as the edits of other clients in the step protocol.
- FreeSlots.FindFreeSlots: the zone is a fixed offset from UTC, so changes to daylight-saving time are not modelled.
- CalendarEvents.BuildGooglePayload: validation of addresses and RFC 3339 text is a precondition on drafts; case folding covers the ASCII letters.
- MailServices.DraftService.Edit: signature stamping, the sender of the source message and the verdict of the policy engine are parameters; surrounding white space is not stripped.
- MailServices.CreateArtifacts: the rules of the policy engine itself are not part of this model, its verdict is a parameter; the undo record that a direct execution leaves is not modelled.
- MailServices.ExecuteDirect: the verdict of the policy engine is a guard of its callers, which the operation `Analyze` of the runs carries; the check of the text's signature against the installation is left out of the guards of a send.
- MailSafety.RunsKeepWorld: a direct execution that its connector refuses delivers nothing and is no operation of a run; timestamps, actors, and result and error texts of mail approvals are not stored.
- WorkQueue.RunMailbox: one cycle reads the clock twice, once for its claims and once for its results; the counters of urgent mails, drafts and approvals are not returned.
- WorkQueue.AgentWorkQueue.ListPendingThreads: one mailbox; the thread key is never missing.
- CloudSync.MessageStore.UpsertMessages: rows are keyed by the remote id because the local uid is an injective function of it; sync time and last uid are not stored.
- CloudSync.MicrosoftGraphSyncService.Sync: counters of stored and removed messages are not returned.
- SyncProperties.SyncAppliesPages: the delta link is on the last page, as the provider documents it.
- Conversations.ConversationStore.RecordAnalysis: rationale, sender, subject, decision path and coalesced count are not stored.
- Conversations.OneDraftPerEpisode: a run of one thread; that the source message exists is part of whether a draft is created.
- SenderPatterns.PatternStore.ListPatternSuggestions: senders arrive normalised; the order of entries that agree in confidence and sample count is left open, and confidence is a fraction that is rounded half up for sorting only.
- Calendar confirmation follow-up, daily briefing, usage summaries, header rules, key migration, owner profile, rule simulator: easy case analysis or sums.
- HTTP, OAuth, token vaults, IMAP, SMTP, language model calls, prompts, audit log and the web interface are not part of this model.
