# Verified model of the outreach platform

A Dafny model of the parts of the platform whose correctness spans several functions, several tasks or
whole runs: booking meetings under a lease lock, mailing a campaign's sequence, crawling a website under
a budget, keeping suppressed addresses suppressed, and the loops that account for rate, words, money and
time. `dafny verify dfyconfig.toml` checks everything.

| file | models |
|---|---|
| `Locks.dfy` | the in-memory lease lock, as a class and as interleaved critical sections |
| `Slots.dfy`, `Booking.dfy`, `BookingBuffer.dfy`, `MeetingBooking.dfy` | the slot search, concurrent bookings and the buffer between them, one whole booking call |
| `LeadStates.dfy`, `Sequence.dfy`, `CleanRun.dfy` | the state machine with its audit events, one enrolment under all its writers, and the runs that meet the bounds |
| `Decision.dfy` | what one delivery, claim, reply or booking comes to, and what a campaign that is not running still does |
| `Stopping.dfy`, `Delivery.dfy`, `Pacing.dfy` | what stops a sequence, when its mails go out, and the time between them |
| `Campaigns.dfy`, `Workspace.dfy` | the send task and the handlers as methods, and a whole workspace run together with its suppression database |
| `Text.dfy`, `CrmRecords.dfy`, `Suppression.dfy` | address normalization, consent flags in CRM records, the suppression checker and its automated writers |
| `Stratify.dfy`, `Crawl.dfy` | the budgeted choice of URLs and the crawl that starts from it |
| `RateLimit.dfy`, `Chunking.dfy`, `Metering.dfy`, `SendTime.dfy` | token bucket, overlapping chunks, usage cost and spending caps, next send time |
| `Instants.dfy`, `WebUrls.dfy`, `Options.dfy` | what several of these share |

Code that changes state step by step is a method or a class here, proved equal to a function; what the
code is for is proved about that function. Every commit and every critical section is one atomic step of
a step system, and a task may die between any two. Sessions are opened with `expire_on_commit=False`, so a
session goes on seeing the copy of a row that it read, until a refresh after a commit of its own: in the
model the scheduler, the send task and the handler of a reply each decide by such a copy and write over
whatever the row holds by then.

## What the proofs say about the code

Some promises turned out to hold only under a condition. Each condition is proved exact, or a run that
breaks the promise is given.

* Bookings never overlap exactly when overlapping bookable requests share a lock key. The key holds the
  start time *as written* (`isoformat()`), and offered slots are written in the prospect's zone, so two
  prospects in different zones can both book one slot (`TwoTimeZonesDoubleBook`).
* That needs every booking to commit within its 15 second lease. Without it no lock helps: bookings stay
  disjoint in all runs exactly when no two bookable requests overlap (`UntimedBookingExactly`).
* Offered slots near the ends of the searched period were not compared with appointments beyond it; the
  margin that suffices is exactly the buffer (`FetchedPeriodExact`).
* A copy that has gone stale is written over a stop. A meeting booked while the send task is past READY is
  overwritten with SENT, then with WAITING, and the sequence mails on (`BookedInFlightMailsOn`); so is a reply
  that is recorded after SENT has been read back (`RepliedInFlightMailsOn`), or between the scheduler's claim
  and its release (`RepliedAfterClaimIsMailed`). Which terminal rows stay as they are in every run is exact:
  those that no release, no handler and no task with an older copy will still write over (`StopStaysExactly`).
* Which enrolments can still be mailed is exact (`SilentExactly`), and so is which are mailed at most once
  more (`OnceMoreExactly`): those that are suppressed, and those that are neither due nor about to be made due
  by a release or by the task. After a booking, therefore, at most one mail goes out, whatever happens in the
  workspace, exactly under that condition (`BookingStopsExactly`).
* While a campaign is not RUNNING, runs come out as if the send task did not exist, but that deliveries end
  (`NotRunningSendsNothing`), and nothing is queued beyond the claims already made (`NotRunningQueuesNothing`).
  A delivery that started before the pause goes on: pausing stops every further mail exactly where the task has
  none in hand (`PauseStopsExactly`).
* Suppression is read from the database each time and stops every mail but one whose task has passed the
  send service's own check (`SuppressionStopsEverySequence`, `OptOutPastTheGateIsMailed`).
* One step is mailed once, and once more for each time the task ended between the provider's acceptance and
  SENT and for each release written over a row whose step had been mailed
  (`MailedOnceUnlessLostOrRevived`); every number of either is reached (`MailBoundAttained`). With exclusive
  claims only the former count (`OrderlyMailsOnceUnlessLost`).
* The audit trail's last event names the row's state, unless a booking wrote it (`AuditReplays`). The trail is
  an unbroken chain exactly in the runs whose every move is made from a current copy of the row
  (`ChainExactly`), and from a row on it stays one in all runs exactly if the row is terminal and no session
  will write over it (`ChainStaysExactly`). Were every session to read the row afresh before it moves it, the
  trail would be a chain and terminal rows would stay, with one mail more at most
  (`FreshReadsKeepEveryPromise`).
* With exclusive claims and one delivery for each release a mail goes out exactly from its send time on
  (`MailedExactlyWhenDue`), and mails of different steps are at least as many weekdays apart as the later
  step's plan asks for (`MailsArePaced`). The scheduler's first commit gives up the row locks of its whole
  batch, so claims are not exclusive: two workers that hold one enrolment queue two deliveries, and the
  second mails the next step however late it was put off to (`TwoSchedulersMailEarly`).
* The human-review halt is not in the table for READY, which every release writes, so there it is always
  refused (`ReviewHaltExactly`); once its retries are given up the row stays in READY and is never claimed
  or mailed again (`ForgottenStays`).
* A row left in SENT by a death is never mailed or advanced again, unless a release is pending
  (`StrandedIsSilent`).
* An inbound opt-out is lost, suppression entry included, exactly when the first enrolment that is
  neither unsubscribed nor completed was stopped for another reason (`OptOutLostExactly`); a reply to an
  enrolment still QUEUED is refused the same way (`ReplyRefusedExactly`).
* Suppression is permanent for every address on the list or marked do-not-contact, and for nothing less:
  `opt_out` alone can be cleared by a sync and a webhook (`PermanentExactly`). All automated writers keep
  `opt_out` implying `do_not_contact`, so in the databases they produce suppression is permanent
  (`SuppressionIsPermanent`).
* The checker raises, and the send task with it, exactly when two entries stand against an address
  (`RaisesExactly`). An address never gets two entries of its own, but a domain does: entered beside one of its
  addresses, or twice, it makes every check of that address raise (`OnlyDomainsRaise`, `DomainTwiceRaises`).
* A suppressed lead written back to its CRM comes back suppressed (`SyncBackRoundTrip`). For a lead not
  known to be suppressed, an opt-out recorded in the CRM survives the writing back exactly when the
  provider's own flag records it or the stage is left alone (`OptOutSurvivesExactly`). Both are about the
  sync service, which the API falls back to when it cannot queue the outcome task; that task never writes
  the flag, and after it HubSpot says opted out exactly when its flag did or an unqualified lead's own stage
  is "unsubscribed", suppressed or not (`OutcomeKeepsOptOutExactly`).
* A database commit that fails after the provider has made its calendar event leaves the event behind, and
  nothing else does (`StrayEventsAreFailedCommits`).
* The search keeps a buffer from what is booked, the booking looks for an overlap only. Bookings made one
  after another keep the buffer exactly when the slots that can be booked have room from every appointment
  and from each other (`BufferKeptExactly`), interleaved ones exactly when besides that overlapping requests
  share a lock key (`InterleavedBufferExactly`); two neighbours of one search never have room
  (`GridBufferExactly`).
* Promised pages are all selected exactly from a budget of as many URLs as are promised (`QuotasExact`).
  Links that score 50 or more go before the selected pages: whatever the site, the home page and all selected
  pages are fetched exactly when they fit the limit and either fit the first batch of eight or leave room in
  the limit for all urgent links that can be found (`TargetsFetchedExactly`).
* The home page is fetched first even where robots.txt forbids it (`HomeIsScannedFirst`).
* The cost of usage is monotone except where the first token count replaces the price of all units
  (`CostMonotoneExactly`).
* A workspace that has reached its cap runs nothing after a run, from whatever books, exactly when all it has
  used since its last enforced usage was free and no campaign was left active by the API since
  (`CapHeldExactly`). A death between the commit of a usage event and the enforcement breaks that, and so does
  a launch or a resume, which do not look at the cap; the next enforced usage restores it
  (`EnforcementHoldsCap`).
* A plan with negative extra hours can schedule mail before opening time, and only such a plan can
  (`BusinessHoursKeptExactly`). The API accepts extra hours from 0 to 23 only, so no plan made through it
  does.

Where the documentation says something else, the model follows the code. The chunker's docstring promises
slices of 500 to 800 tokens with 100 tokens of overlap; the code counts 400 and 60 words and never splits a
paragraph, so the only bound on a chunk is that of `ChunkSizeBound`, which is reached for every length of the
longest paragraph (`ChunkSizeBoundAttained`). The docstring of `stratify_urls` says that policies, FAQs,
contact and about pages are never crowded out; that holds from a budget of 28 beyond the home pages on
(`QuotasGuaranteed`), and exactly as `QuotasExact` says. The calendar engine's docstring promises 15-minute
buffers before and after meetings; `BufferKeptExactly` says when bookings keep them. Booking sets a
`stop_reason` on the enrolment, for which its table has no column. The class comment of the lock promises
protection against double sends; it protects a live lease only (`LiveLeasesExclude`,
`ExpiredHolderOverlapsSuccessor`).

## Model

| member | source | states |
|---|---|---|
| Locks.DistributedLock.constructor | packages/common/distributed_lock.py:22-30 | a new lock object names its prefixed key and has not acquired anything |
| Locks.DistributedLock.Acquire | packages/common/distributed_lock.py:50-83 | the bounded retries on the in-memory table end as the tries function says, with other tasks acting between attempts |
| Locks.TriesMeaning | packages/common/distributed_lock.py:70-83 | the lock is won exactly when some attempt within the limit finds the key free, at the first such attempt; a failed acquire has written nothing |
| Locks.DistributedLock.Release | packages/common/distributed_lock.py:85-109 | a release clears the flag and deletes the entry only under its own token |
| Locks.LiveLeasesExclude | packages/common/distributed_lock.py:70-83 | in every interleaving, stale clock readings included, two unexpired acquired lock objects never name one key |
| Locks.LiveLeaseKeepsItsEntry | packages/common/distributed_lock.py:70-109 | in every interleaving an unexpired holder still owns its table entry, whoever claims or releases late |
| Locks.ReleaseSparesSuccessors | packages/common/distributed_lock.py:105-109 | a late release never removes an entry written under another token |
| Locks.ExpiredHolderOverlapsSuccessor | packages/common/distributed_lock.py:32-34 | the expiry condition is needed: an expired holder still reports itself acquired beside a live successor |
| Slots.FindAvailableSlots | packages/calendar/availability.py:52-190 | where the daily windows do not overlap, the search returns, in order, exactly the grid slots of the searched working days that begin over two hours from now and keep the buffer from every provider block and every confirmed appointment of the connection that meets the period, except those the maximum cuts off |
| Slots.SearchWindow | packages/calendar/availability.py:158-188 | one day's stepping loop appends the window's offerable slots in order and stops when the maximum is reached |
| Slots.HasConflict | packages/calendar/availability.py:167-172 | the inner loop reports a conflict exactly when some busy block is nearer than the buffer |
| Slots.BufferBusy | packages/calendar/availability.py:120-125 | every busy block is widened by the buffer on both sides |
| Slots.SearchIsExact | packages/calendar/availability.py:108-190 | that, as a statement about the search result as a function of the appointments |
| Slots.FetchExact | packages/calendar/availability.py:109-118 | a slot is fetched if and only if some confirmed appointment of the connection has it and meets the period |
| Slots.OthersDoNotMatter | packages/calendar/availability.py:109-118 | cancelled appointments, those of other connections and the order of the rest change nothing about the result |
| Slots.KeepsDistanceExactly | packages/calendar/availability.py:120-172 | a slot keeps its distance from a block exactly if it ends the buffer before it or starts the buffer after it |
| Slots.CandidatesExact | packages/calendar/availability.py:139-160 | a slot is a candidate exactly when it lies on the grid of a working day in the searched range |
| Slots.FetchedPeriodExact | packages/calendar/availability.py:110-116 | a slot is safe from every appointment outside the fetched period exactly when it lies inside the period by the buffer |
| Slots.OfferedSlotIsFree | packages/calendar/availability.py:108-172 | an offered slot inside the period by the buffer keeps its distance from every confirmed appointment of the connection, fetched or not |
| Slots.FixedOffsetIsOrdered | packages/calendar/availability.py:145-156 | in a zone of fixed offset the daily windows never overlap |
| Slots.GridSlotsOverlapOnlyIfEqual | packages/calendar/availability.py:158-188 | two slots of one host's grid overlap only if they are the same slot |
| Bookings.NoDoubleBookingExactly | packages/calendar/availability.py:212-277 | in all interleavings whose commits are in time, confirmed appointments stay disjoint exactly when overlapping bookable requests share a lock key |
| Bookings.KeysAgreeExactly | packages/calendar/availability.py:212-212 | requests whose hosts contain no colon name one lock exactly if they agree in the host and in the way the start time is written |
| Bookings.GridBookingsNeverOverlap | packages/calendar/availability.py:158-277 | bookings of one grid, host name and way of writing start times never overlap in any interleaving, though the key names only the start |
| Bookings.RunKeepsInv | packages/calendar/availability.py:215-277 | every run keeps: a request that has passed its check and holds a live lease conflicts with nothing confirmed since |
| Bookings.TwoTimeZonesDoubleBook | packages/calendar/availability.py:212-212 | two requests for one slot written with different UTC offsets are both confirmed |
| Bookings.LateCommitDoubleBooks | packages/calendar/availability.py:215-277 | from any calendar and time, a commit after the lease has expired double-books a slot even under a shared key |
| Bookings.UntimedBookingExactly | packages/calendar/availability.py:215-277 | without the time condition all runs stay disjoint exactly when no two bookable requests overlap |
| MeetingBooking.FindConflict | packages/calendar/availability.py:233-241 | the conflict query finds a confirmed overlapping appointment of the connection exactly if there is one |
| MeetingBooking.OutcomeExactly | packages/calendar/availability.py:215-322 | a booking is accepted exactly if key, connection, slot, provider and commit all permit it, and otherwise the outcome names what stood in its way first |
| MeetingBooking.BookMeeting | packages/calendar/availability.py:193-322 | the call's outcome, appointments, audit event, provider event, enrolments and lock table are exactly those of the first failing check, of a failed commit or of success; no entry of its own is left in the lock table |
| MeetingBooking.SerialBookingsNeverOverlap | packages/calendar/availability.py:232-241 | calls made one after another never double-book a connection, whatever slots they ask for |
| MeetingBooking.StrayEventsAreFailedCommits | packages/calendar/availability.py:252-318 | every appointment made has its provider event, and beyond those there is exactly one for each failed commit |
| MeetingBooking.BufferKeptExactly | packages/calendar/availability.py:232-241 | bookings made one after another keep the buffer exactly when the slots that can be booked have room from every appointment and, overlaps aside, from each other |
| BookingBuffers.InterleavedBufferExactly | packages/calendar/availability.py:212-277 | in all interleavings whose commits are in time, bookings keep the buffer exactly when overlapping bookable requests share a lock key and all others have room |
| MeetingBooking.GridBufferExactly | packages/calendar/availability.py:158-188 | two slots of one day's grid keep the buffer exactly when enough slots lie between them |
| LeadStates.CampaignLead.constructor | apps/api/routers/campaigns.py:413-420 | a new enrolment is QUEUED at step 1, unscheduled and without events |
| LeadStates.CampaignLead.TransitionLeadState | packages/campaign/state_machine.py:101-164 | a move that the table allows from the state the session's copy shows is written over the row, clears the schedule on a terminal state and appends one event; a refused one changes nothing; the copy is read back after a commit |
| LeadStates.TerminalExactly | packages/campaign/state_machine.py:20-92 | the terminal states are exactly those the table gives no way out of |
| LeadStates.RefusedExactly | packages/campaign/state_machine.py:117-130 | a move to the state already shown is none, and exactly those the table lacks are refused |
| LeadStates.EnteredFrom | packages/campaign/state_machine.py:30-92 | the table the other way round: from exactly which states each state is reached |
| LeadStates.WriteKeepsAudited | packages/campaign/state_machine.py:124-164 | from whatever copy a move is written, its event is a move of the table and names the row's new state |
| Sequences.MailedOnceUnlessLostOrRevived | apps/worker/tasks/send_email_tasks.py:162-227 | over every run, mails for one step number are at most one plus the times the task ended between the provider's acceptance and SENT plus the releases written over a row whose step had been mailed |
| CleanRuns.MailBoundAttained | packages/email/send_service.py:113-176 | for every number of such deaths and of such releases some run reaches that bound |
| Sequences.MailsNeverStepBack | apps/worker/tasks/send_email_tasks.py:197-216 | mailed step numbers never decrease |
| Sequences.AuditReplays | packages/campaign/state_machine.py:146-160 | over every run each event is a move of the table and the last one names the row's state, a booked meeting being the one exception |
| Sequences.ChainExactly | packages/campaign/state_machine.py:117-160 | the events form an unbroken chain from QUEUED exactly in the runs whose every move is made from a current copy: one that shows the state the row is in or, where a booking wrote that state, the one the booking wrote over |
| Sequences.EventsBounded | packages/campaign/state_machine.py:30-92 | although the table has cycles, no run emits more than 3n+1 events and four more for each move made from a copy that is not current, n being the number of consecutively defined steps (2, and two more for each such move, when step 1 is not defined) |
| CleanRuns.EventBoundAttained | apps/worker/tasks/send_email_tasks.py:162-227 | for every n and every number of such moves some run emits exactly that many |
| CleanRuns.CleanTask | apps/worker/tasks/send_email_tasks.py:162-227 | an undisturbed task mails its step once and leaves the enrolment waiting for the next step, or completed |
| Decisions.NotRunningSendsNothing | apps/worker/tasks/send_email_tasks.py:63-66 | from any enrolment with the task idle, a run whose every start finds the campaign not RUNNING mails nothing and has the same row, claims and replies as the run without the task |
| Decisions.NotRunningQueuesNothing | apps/worker/tasks/scheduler_tasks.py:30-43 | in a run whose every claim finds the campaign not RUNNING no claim is added, and claims and deliveries together never grow |
| Decisions.PauseStopsExactly | apps/worker/tasks/send_email_tasks.py:63-66 | a campaign that stays paused mails an enrolment no more exactly where the task has no mail in hand |
| Decisions.ClaimedExactly | apps/worker/tasks/scheduler_tasks.py:30-43 | an enrolment is claimed exactly if its campaign is running and it is due, which a waiting row without a time never is |
| Decisions.ClaimEnds | apps/worker/tasks/scheduler_tasks.py:57-76 | a claim ends by its release, which makes the row READY and queues a delivery, or without it |
| Decisions.DeliveryMailsExactly | apps/worker/tasks/send_email_tasks.py:41-195 | an uninterrupted delivery mails the row's step exactly if the campaign is running, the address not suppressed, the step defined, a mailbox picked, the draft sendable, the row in one of four states, the checks under the lock pass and the provider accepts |
| Decisions.DeliveryStopsExactly | apps/worker/tasks/send_email_tasks.py:63-148 | exactly when a delivery leaves the row unsubscribed, completed or handed off |
| Decisions.RaisingIsRetried | apps/worker/tasks/send_email_tasks.py:81-82 | a checker that raises writes nothing and leaves the delivery to be retried |
| Decisions.SkippedIsDone | apps/worker/tasks/send_email_tasks.py:63-120 | a delivery for a campaign not running, a terminal row or without a mailbox is done and changes nothing else |
| Decisions.ReplyMovesExactly | apps/worker/tasks/inbound_email.py:156-253 | where each class of reply takes an enrolment that is as its handler has read it, and when it suppresses |
| Decisions.BookingStops | packages/calendar/availability.py:279-295 | a booking stops whatever has not been stopped and changes nothing but the state |
| Decisions.StoppedHasNoTime | packages/campaign/state_machine.py:124-144 | over every run a waiting row has a send time and a stopped one has none, booked rows aside |
| Stopping.SilentExactly | apps/worker/tasks/send_email_tasks.py:68-211 | which enrolments no later run can mail, read off the row, the checker's answer, the pending releases, and the task's position and copy |
| Stopping.OnceMoreExactly | apps/worker/tasks/send_email_tasks.py:163-216 | which enrolments no run mails more than once again |
| Stopping.StopStaysExactly | packages/campaign/state_machine.py:117-163 | a terminal row keeps its state and trail in every run exactly when no release is pending, no handler holds a copy from before the stop, and the task's copy permits no further move |
| Stopping.StoppedMailsAtMostOneMore | apps/worker/tasks/send_email_tasks.py:68-90 | such a row gets the mail in hand at most, and an unsubscribed one not even that before the gate |
| Stopping.ChainStaysExactly | packages/campaign/state_machine.py:117-160 | a trail that is a chain up to the row's state stays one in every run exactly from terminal rows that no session will write over |
| Stopping.FreshReadsKeepEveryPromise | packages/campaign/state_machine.py:117-163 | in runs whose every move is made from the state the row is in, the trail is a chain to the row's state, a booking apart, and a terminal row keeps state and trail and gets one mail more at most |
| Stopping.StrandedIsSilent | apps/worker/tasks/send_email_tasks.py:163-169 | a row in SENT or REPLIED that no task is past READY for and no release is pending for is never mailed or moved to another step |
| Stopping.BookedInFlightMailsOn | apps/worker/tasks/send_email_tasks.py:162-216 | a meeting booked while the task is past READY is written over by SENT and WAITING, and the next step is mailed |
| Stopping.RepliedInFlightMailsOn | apps/worker/tasks/send_email_tasks.py:189-216 | a reply recorded after SENT has been read back is written over by WAITING, the trail is broken, and the next step is mailed |
| Stopping.RepliedAfterClaimIsMailed | apps/worker/tasks/scheduler_tasks.py:47-72 | a reply recorded between the claim and the release is written over by READY and the next step is mailed |
| Stopping.SuppressedMailsAtMostOneMore | packages/email/send_service.py:55-58 | once suppression has committed, mails grow by at most one, and only if the task has passed the gate |
| Stopping.SuppressedPastTheGateIsMailed | packages/email/send_service.py:55-114 | that one mail is possible |
| Deliveries.RunKeepsOrder | apps/worker/tasks/scheduler_tasks.py:57-72 | with exclusive claims and starts only for queued deliveries there is never more than one claim or delivery, none of the latter for a row that may be claimed, and no claim of a mailed step |
| Deliveries.OrderlyMailsOnceUnlessLost | apps/worker/tasks/send_email_tasks.py:162-227 | in such runs a step is mailed once, and once more for each time the task ended between the provider's acceptance and SENT |
| Deliveries.HeldUntilDue | apps/worker/tasks/scheduler_tasks.py:32-65 | in such runs nothing mails a waiting enrolment while the scheduler looks before its time |
| Deliveries.MailedExactlyWhenDue | apps/worker/tasks/scheduler_tasks.py:32-72 | in such runs a waiting enrolment can be mailed up to a time exactly when its send time is no later |
| Deliveries.TwoSchedulersMailEarly | apps/worker/tasks/scheduler_tasks.py:43-72 | two workers that claim one enrolment before either releases it get two steps mailed, whatever time the second was put off to |
| Deliveries.ReviewHaltExactly | apps/worker/tasks/send_email_tasks.py:137-148 | from exactly which states of the task's copy the human-review halt takes effect; from READY it changes nothing |
| Deliveries.ReviewHaltWhenOrderly | apps/worker/tasks/send_email_tasks.py:137-148 | with exclusive claims and one delivery for each release it takes effect exactly from SENT and REPLIED |
| Deliveries.ForgottenStays | apps/worker/tasks/scheduler_tasks.py:35-42 | a READY row without a delivery is never claimed or mailed again; only a reply or a booking moves it |
| Deliveries.ReviewHaltForgets | apps/worker/tasks/send_email_tasks.py:137-148 | a refused halt whose retries are given up leaves such a row |
| Pacing.TicksAreSteps | apps/worker/tasks/scheduler_tasks.py:26-43 | a run with a clock is a run of the step system |
| Pacing.MailsArePaced | apps/worker/tasks/send_email_tasks.py:197-216 | with exclusive claims and one delivery for each release, two mails that follow each other are for one step or at least as many of the prospect's weekdays apart as the later step's plan asks for |
| Campaigns.SendTask.Load | apps/worker/tasks/send_email_tasks.py:41-160 | what the task decides from the row, the campaign, the suppression store, the steps, the mailboxes and the draft, in the source's order; a checker that raises ends the task; the session's copy is that of the load |
| Campaigns.SendTask.WriteDecision | apps/worker/tasks/send_email_tasks.py:83-169 | the stop or READY is written by the session's copy and READY is read back; a refusal ends the task |
| Campaigns.SendTask.Dispatch | packages/email/send_service.py:51-176 | lock, suppression check again, mailbox status and cap as its copy shows them, credentials, provider call and message row as three steps of the step system; a 401 revokes the mailbox and a delivery writes its counter one above the copy |
| Campaigns.SendTask.ConfirmSent | apps/worker/tasks/send_email_tasks.py:188-195 | SENT is written by the session's copy and read back, or its refusal ends the task |
| Campaigns.SendTask.AdvanceStep | apps/worker/tasks/send_email_tasks.py:197-227 | step number and next time are committed with the move that the session's copy permits, or rolled back with it |
| Campaigns.SendTask.Deliver | apps/worker/tasks/send_email_tasks.py:39-230 | one uninterrupted delivery is a run of the step system, and mails exactly if everything that the task and the send service ask for is so, the mailbox's health and cap included |
| Campaigns.HaltForMeeting | packages/calendar/availability.py:279-295 | booking writes MEETING_BOOKED over every enrolment of the lead in the six listed states and touches no other |
| Campaigns.HandleReply | apps/worker/tasks/inbound_email.py:140-253 | enrolments are moved in order, each as a step of the step system by the state the handler has read, until the first refusal; later ones stay untouched; and whether anything is committed |
| Campaigns.ReplyIsStep | apps/worker/tasks/inbound_email.py:176-253 | handling one enrolment is one step, and an opt-out that goes through suppresses |
| Campaigns.ProcessInbound | apps/worker/tasks/inbound_email.py:60-253 | sender, suppression and enrolments are committed together or not at all |
| Campaigns.ReplyRefusedExactly | apps/worker/tasks/inbound_email.py:176-253 | in exactly which states, as the handler has read them, a reply aborts it |
| Campaigns.OptOutLostExactly | apps/worker/tasks/inbound_email.py:156-190 | an opt-out is never committed exactly when the first enrolment it has to deal with was stopped otherwise |
| Workspaces.BitIsTheCheckersAnswer | packages/email/suppression.py:22-52 | the suppression bit of the step system is what the checker answers for the enrolment's address |
| Workspaces.WorkspaceRunsProject | apps/worker/tasks/scheduler_tasks.py:57-76 | any run of a workspace and its suppression database acts on each enrolment as one run of that enrolment's steps, and never takes a suppression back |
| Workspaces.EveryEnrolmentMailsOnce | apps/worker/tasks/send_email_tasks.py:162-227 | whatever happens in the workspace, the bound on mails of one step holds for each enrolment |
| Workspaces.SuppressionStopsEverySequence | packages/email/send_service.py:55-58 | once an address is blocked by any writer, each of its enrolments gets at most one more mail, and only if its task had passed the gate; later enrolments get none |
| Workspaces.OptOutPastTheGateIsMailed | apps/worker/tasks/inbound_email.py:156-190 | that one mail is possible: the opt-out commits between the gate and the provider's answer |
| Workspaces.BookingStopsExactly | packages/calendar/availability.py:279-295 | after a booking an enrolment of the lead is mailed at most once more, in all runs of the workspace, exactly when it is suppressed or neither a release nor the task will write over the booking by an older copy |
| Workspaces.BookingSparesOthers | packages/calendar/availability.py:279-295 | a booking leaves the enrolments of other leads alone |
| Workspaces.BookingStays | packages/calendar/availability.py:279-295 | the booked enrolment is terminal, and stays in its state in every run unless some session will write over it |
| CrmRecords.Normalize | packages/crm/normalizer.py:67-71 | every normalizer makes an opted-out contact do-not-contact, and only Salesforce can say do-not-contact without opt-out |
| CrmRecords.HubSpotOptsOutExactly | packages/crm/normalizer.py:67-71 | the values of the three HubSpot fields that count as an opt-out, and no others |
| CrmRecords.SalesforceOptsOutExactly | packages/crm/normalizer.py:144-150 | the values of the Salesforce flag and the parts of its status that count as an opt-out, and no others |
| CrmRecords.PipedriveOptsOutExactly | packages/crm/normalizer.py:247-248 | the marketing statuses that count as an opt-out, and no others |
| CrmRecords.ZohoOptsOutExactly | packages/crm/normalizer.py:322-326 | the values of the Zoho flag and the part of its status that count as an opt-out, and no others |
| CrmRecords.PayloadReadsAsOptOut | packages/crm/sync_service.py:343-382 | a record carrying the written-back suppression field is read as opted out by the provider's normalizer |
| CrmRecords.SyncBackRoundTrip | packages/crm/sync_service.py:343-382 | a suppressed lead written back to any provider comes back suppressed, whatever else the record says |
| CrmRecords.SuppressionKeepsStage | packages/crm/sync_service.py:343-382 | beside its suppression a lead is written back like any other |
| CrmRecords.OptOutSurvivesExactly | packages/crm/sync_service.py:343-382 | for every provider, record and lead not known to be suppressed, the CRM's opt-out survives the writing back exactly when the flag records it or the stage is left alone |
| CrmRecords.StageErasesOptOut | packages/crm/sync_service.py:347-349 | such a loss happens: a booked stage erases an opt-out recorded only in HubSpot's status or lifecycle |
| CrmRecords.OutcomeKeepsOptOutExactly | apps/worker/tasks/crm_sync.py:82-88 | after the outcome task HubSpot says opted out exactly when its flag did or an unqualified lead's own stage is "unsubscribed" |
| Suppression.Store.IsEmailSuppressed | packages/email/suppression.py:22-52 | the checker's verdict, including the error when several entries match |
| Suppression.CheckExactly | packages/email/suppression.py:22-52 | in every spelling, an address passes exactly when it has an at-sign and no entry, domain entry or lead flag stands against it |
| Suppression.RaisesExactly | packages/email/suppression.py:29-38 | the checker raises exactly when two entries stand against the address |
| Suppression.OnlyDomainsRaise | packages/email/suppression.py:83-107 | over every run no address has two entries of its own, so only an entry for its domain makes the checker raise |
| Suppression.DomainTwiceRaises | packages/email/suppression.py:83-107 | a domain added twice, or beside one of its addresses, does make it raise |
| Suppression.Store.OpenGate | packages/email/send_service.py:55-58 | the send service's check lets a mail on exactly when its address is not blocked |
| Suppression.Store.AddToSuppression | packages/email/suppression.py:74-122 | an entry is added unless one exists, and the lead's flags are set with it |
| Suppression.Store.ImportContact | packages/crm/sync_service.py:123-248 | flags of an existing lead are only ever set, never cleared; an unusable address is skipped and counted |
| Suppression.Store.ImportContacts | packages/crm/sync_service.py:119-257 | a batch is imported contact by contact, with one error for each unusable address |
| Suppression.Store.HandleWebhook | packages/crm/sync_service.py:420-448 | the webhook overwrites opt_out, only ever sets do_not_contact, and needs exactly one lead with the record id |
| Suppression.Store.InterceptInbound | apps/worker/tasks/inbound_email.py:60-174 | the sender becomes a lead; an opt-out adds an entry once and sets both flags |
| Suppression.SuppressionIsPermanent | packages/email/suppression.py:22-52 | once an address is blocked, no later run of sync, webhook, inbound and list steps lets it through in any spelling |
| Suppression.PermanentExactly | packages/crm/sync_service.py:431-437 | an address stays blocked through every run exactly when it is listed, marked do-not-contact or has no at-sign |
| Suppression.StepKeepsOptOutFinal | packages/crm/sync_service.py:189-197 | every automated writer keeps opt_out implying do_not_contact |
| Suppression.SuppressingBlocks | packages/email/suppression.py:83-118 | adding an address, an inbound opt-out and importing an opted-out record each block the address |
| Suppression.DomainBlocks | packages/email/suppression.py:26-36 | a suppressed domain blocks local@host for every local part and every host that normalizes to it |
| Suppression.DomainBlocksNoOther | packages/email/suppression.py:26-36 | it changes nothing for an address with another host |
| Suppression.SuppressingFlags | packages/email/suppression.py:108-118 | an address entered for the first time and the sender of an opt-out get both flags; no other lead is touched |
| Suppression.SuppressingLists | packages/email/suppression.py:83-118 | adding an address and an inbound opt-out put it on the list, in at most one entry more |
| Suppression.SenderBecomesLead | apps/worker/tasks/inbound_email.py:78-174 | an unknown sender becomes the one new lead, flagged only by an opt-out |
| Suppression.DoNotContactBlocks | packages/crm/sync_service.py:189-248 | a record that says do-not-contact blocks its address, new or known |
| Suppression.CleanRecordBlocksNothing | packages/crm/sync_service.py:123-248 | a record that says neither changes nothing about who is blocked |
| Suppression.WebhookBlocks | packages/crm/sync_service.py:429-437 | a webhook's "true", in any case, blocks the lead with the record id for good, and no other address |
| Suppression.WebhookNeedsOneLead | packages/crm/sync_service.py:420-427 | a record id of no lead, or of two, makes the webhook change nothing |
| Text.NormIdempotent | packages/email/suppression.py:25-25 | stripping and lower-casing an address twice is doing it once |
| Text.HostOfAddress | packages/email/suppression.py:25-26 | for every local part and every host without an at-sign, the domain of local@host is the normalized host |
| Text.SpellingDoesNotMatter | packages/email/suppression.py:25-25 | white space around an address and the case of its letters do not matter |
| Stratify.StratifyUrls | packages/website_intelligence/sitemap.py:215-320 | buckets, tiers and fill compute the selection function |
| Stratify.FirstSuitableBucket | packages/website_intelligence/sitemap.py:235-258 | a path goes to the first bucket, in tier order, that suits it |
| Stratify.SpellingKeepsBucket | packages/website_intelligence/sitemap.py:236-237 | neither the case of a path nor slashes at its end matter to its bucket |
| Stratify.BucketsPartitionInput | packages/website_intelligence/sitemap.py:235-258 | every input lands in exactly one bucket |
| Stratify.SortDescExact | packages/website_intelligence/sitemap.py:260-262 | the buckets' sort is a stable descending permutation |
| Stratify.SelectionIsCutRanking | packages/website_intelligence/sitemap.py:264-320 | the budget only cuts one fixed ranking off |
| Stratify.BudgetPrefix | packages/website_intelligence/sitemap.py:267-320 | a smaller budget selects a prefix of what a larger one selects |
| Stratify.SelectionExact | packages/website_intelligence/sitemap.py:264-320 | the selection has no duplicates, comes from the input and has the smaller of budget and number of distinct URLs as its length |
| Stratify.QuotasGuaranteed | packages/website_intelligence/sitemap.py:272-305 | with room for the home pages and 28 more, the best 8 policy, 4 about, 4 contact, 6 FAQ and 6 pricing pages and all home pages are selected; with room for 85 more, so are the best 12 collections, 5 proofs, 5 documents and 35 products |
| Stratify.QuotasExact | packages/website_intelligence/sitemap.py:264-305 | every promised place of the first n buckets is selected exactly when the budget has room for their distinct promised URLs, for every n |
| Stratify.TierIsBest | packages/website_intelligence/sitemap.py:260-305 | nothing a tier leaves out of its bucket scores higher than what it takes |
| Stratify.FillTakesTheBest | packages/website_intelligence/sitemap.py:307-318 | no input left out scores higher than one that filled the remaining budget |
| Crawl.NextBatch | packages/website_intelligence/crawler_service.py:119-125 | a batch is the first unvisited URLs that concurrency and limit have room for |
| Crawl.BatchSizeExactly | packages/website_intelligence/crawler_service.py:119-125 | a batch has eight URLs unless the limit or the frontier has fewer left |
| Crawl.AddPageLinks | packages/website_intelligence/crawler_service.py:178-192 | a page's admissible new links are inserted as the function says |
| Crawl.AddLinksClosedForm | packages/website_intelligence/crawler_service.py:178-192 | urgent links end up in front in reverse order of discovery, ordinary ones behind in order |
| Crawl.FetchBatch | packages/website_intelligence/crawler_service.py:130-192 | results are counted as failed, missing or crawled, and only pages add links; Crawl.CountersExact says what the counts are |
| Crawl.RunScan | packages/website_intelligence/crawler_service.py:79-262 | the scan is that of the crawl loop run from the stratified, robots-filtered targets with the home page first; by the site's answers to its fetches it has FAILED exactly when none was a page and is a PARTIAL_FAILURE exactly when one was and some fetch failed, a 404 or 410 not counting; the numbers of pages, failures and discovered URLs are exact |
| Crawl.CountersExact | packages/website_intelligence/crawler_service.py:95-198 | at the end failed and missing are the numbers of fetched URLs that failed and that were missing, and the number discovered is that of the URLs seen, if more than before |
| Crawl.ScanReports | packages/website_intelligence/crawler_service.py:195-262 | status and numbers of a whole scan, over the site's answers |
| Crawl.RoundProgresses | packages/website_intelligence/crawler_service.py:118-138 | every round crawls a page or shortens the frontier, so the loop ends on an infinite web, and never passes the limit |
| Crawl.EmptyBatchMeansDone | packages/website_intelligence/crawler_service.py:127-128 | the exit on an empty batch is never premature |
| Crawl.VisitsExactlyTheReachable | packages/website_intelligence/crawler_service.py:98-198 | only URLs reachable by admissible links are visited, and all of them when the crawl ends below its limit |
| Crawl.CrawlAccounts | packages/website_intelligence/crawler_service.py:118-198 | no URL is fetched twice, the limit holds, every fetch is a page, a failure or a miss, and a duplicate-free frontier stays so and disjoint from what was visited |
| Crawl.HomeFirstKeepsNoDup | packages/website_intelligence/crawler_service.py:88-93 | the home page heads the frontier, which otherwise holds just the targets, each once |
| Crawl.ScanRespectsRobots | packages/website_intelligence/crawler_service.py:79-192 | a whole scan fetches each URL once, keeps its limit and, the home page aside, fetches only what robots.txt admits |
| Crawl.HomeIsScannedFirst | packages/website_intelligence/crawler_service.py:88-93 | the home page is fetched first, whatever robots.txt says of it |
| Crawl.TargetsFetchedExactly | packages/website_intelligence/crawler_service.py:118-192 | of all sites with at most m urgent links beside the selection, every one has its home page and all selected pages fetched exactly when these fit the limit and either fit one batch or leave room for m more |
| Crawl.TargetsFetchedWithRoom | packages/website_intelligence/crawler_service.py:118-192 | on one site the room counts the URLs themselves, links that are selected anyway once |
| Crawl.UrgentLinksStarveTarget | packages/website_intelligence/crawler_service.py:186-190 | for every selection larger than a batch and every limit it fits, one urgent link of the home page more than there is room for costs a selected page |
| RateLimit.RateLimiter.constructor | packages/crm/adapters/hubspot_adapter.py:24-29 | a new limiter starts with a full bucket |
| RateLimit.RateLimiter.Acquire | packages/crm/adapters/hubspot_adapter.py:31-45 | one acquire refills, sleeps if it must and takes a token |
| RateLimit.GrantPaysForItself | packages/crm/adapters/hubspot_adapter.py:31-45 | tokens stay between zero and the maximum less one after a grant, no grant spends more than time gave back, and no wait exceeds the time of one token |
| RateLimit.WaitIsShortest | packages/crm/adapters/hubspot_adapter.py:37-42 | a caller sleeps exactly until the first moment at which a token is there |
| RateLimit.RateBound | packages/crm/adapters/hubspot_adapter.py:24-45 | in any run, grants in any closed interval are at most a full bucket plus what the interval gives back |
| RateLimit.RateBoundTight | packages/crm/adapters/hubspot_adapter.py:24-45 | a fresh limiter attains that bound for every whole number of returned tokens |
| Chunking.ChunkText | packages/ai/chunking.py:20-85 | the loop yields the pieces function, with indices 0 to n-1 and the token estimate of each |
| Chunking.ChunkRoundTrip | packages/ai/chunking.py:43-85 | each chunk starts with the last 60 words of the one before it, and without those the chunks are the document's words in order |
| Chunking.ChunkSizeBound | packages/ai/chunking.py:45-65 | no chunk has more words than 400 or 60 plus the longest paragraph |
| Chunking.ChunkSizeBoundAttained | packages/ai/chunking.py:45-65 | for every length of the longest paragraph some document has a chunk that long |
| Chunking.CutsExact | packages/ai/chunking.py:43-65 | a chunk is its overlap and a run of whole paragraphs, cut exactly where the next paragraph would not fit |
| Metering.QuantizeIsNearest | packages/ai/metering.py:55-69 | a cost is the micro-dollar amount nearest to the exact one, halves going away from zero |
| Metering.TokenBillsAdd | packages/ai/metering.py:48-55 | token bills of one model add up, in either count |
| Metering.UnitBillsAdd | packages/ai/metering.py:57-69 | so do bills of units |
| Metering.SonnetPrices | packages/ai/metering.py:16-17 | a million prompt tokens, completion tokens and units of this model cost 3, 15 and 9 dollars, its name in any case |
| Metering.Gpt4oPrices | packages/ai/metering.py:18-18 | those of this one 5, 15 and 10 dollars |
| Metering.Gpt4oMiniPrices | packages/ai/metering.py:19-19 | those of this one 15, 60 and 37.5 cents |
| Metering.SmallEmbeddingPrices | packages/ai/metering.py:20-20 | those of this one 2 cents each |
| Metering.LargeEmbeddingPrices | packages/ai/metering.py:21-21 | those of this one 13 cents each |
| Metering.UnlistedModelCost | packages/ai/metering.py:50-60 | a model that is not listed is billed as claude-3-5-sonnet |
| Metering.UnitPrices | packages/ai/metering.py:25-30 | without a model a mail costs a tenth of a cent, a rendering half a cent, an enrichment 2 cents and a token 9 micro-dollars; anything else is free |
| Metering.NamesResolve | packages/ai/metering.py:169-183 | each event type's own name resolves to it, in any case, and any name with a model to tokens |
| Metering.CostMonotone | packages/ai/metering.py:33-69 | more of everything never costs less while the bill is made the same way, and costs are not negative |
| Metering.CostMonotoneExactly | packages/ai/metering.py:48-63 | adding token counts never lowers a bill, whatever the units, exactly when it was by tokens already or still is not |
| Metering.TotalDriftBounded | packages/ai/metering.py:33-69 | the recorded total of n events is within n half micro-dollars of the exact total |
| Metering.TotalDriftAttained | packages/ai/metering.py:57-63 | that bound is reached for every n |
| Metering.Meter.TotalSpend | packages/ai/metering.py:77-82 | the workspace's spend is the sum of its recorded costs |
| Metering.Meter.EnforceSpendingLimits | packages/ai/metering.py:72-152 | at or above the cap every RUNNING or SCHEDULED campaign of the workspace is paused and one audit entry lists them; otherwise nothing changes |
| Metering.Meter.AddEvent | packages/ai/metering.py:169-214 | the first commit: the event is recorded with its type resolved and its cost, which the price lemmas pin |
| Metering.Meter.RecordUsage | packages/ai/metering.py:155-219 | the event is committed at its cost, then the cap is enforced by a second commit |
| Metering.UsagePausesExactly | packages/ai/metering.py:105-120 | a usage pauses the running and scheduled campaigns of its workspace, and no others, exactly if the spend with its own cost has reached the cap |
| Metering.UsageAuditsExactly | packages/ai/metering.py:105-141 | exactly then it adds one audit entry, which holds the spend, the cap and the campaigns it has paused |
| Metering.CapHeldExactly | packages/ai/metering.py:105-219 | from whatever books, a workspace that has reached its cap runs nothing after a run, deaths between the two commits and statuses set by the API included, exactly when its usage since the last enforced one was free and no campaign was left active since |
| Metering.EnforcementHoldsCap | packages/ai/metering.py:105-141 | an enforced usage restores the cap, whatever the books were |
| Metering.DeathLeavesCampaignsRunning | packages/ai/metering.py:211-217 | an instance: a death between the commits of any usage that costs something leaves some campaigns running over the cap until the next enforced usage |
| Metering.SpendDriftBounded | packages/ai/metering.py:77-105 | the spend compared with the cap is within half a micro-dollar an event of the exact price of the workspace's usage |
| Metering.RunsOnlyPauseUsers | packages/ai/metering.py:110-120 | a campaign whose status nobody sets is at most paused, and only in a workspace with an enforced usage |
| SendTime.SkipWeekend | packages/campaign/scheduler.py:45-46 | the weekend loop ends on the first weekday on or after a day |
| SendTime.AddBusinessDays | packages/campaign/scheduler.py:34-46 | the day-counting loops end on the closed form |
| SendTime.BusinessDayExact | packages/campaign/scheduler.py:38-42 | n business days later is the weekday with exactly n weekdays between |
| SendTime.CalculateNextSendTime | packages/campaign/scheduler.py:24-88 | the whole calculation, its errors included |
| SendTime.SentInBusinessHours | packages/campaign/scheduler.py:54-85 | the result is on a weekday, within business hours, on the jitter minute and later than now |
| SendTime.BusinessHoursKeptExactly | packages/campaign/scheduler.py:54-60 | that holds for every moment of asking exactly when the extra hours are not negative |
| SendTime.FailsExactly | packages/campaign/scheduler.py:62-70 | the calculation fails exactly on an hour or minute no clock shows |
| SendTime.SentExactly | packages/campaign/scheduler.py:24-88 | the local moment completely: how many weekdays after the day of asking, at which hour and which minute |
| SendTime.DelayHonoured | packages/campaign/scheduler.py:34-60 | from one day on, exactly the asked number of weekdays pass, and one more when the extra hours run past closing |
| SendTime.MonotoneInDelay | packages/campaign/scheduler.py:34-85 | a longer delay never sends earlier |

## Left out

- The Redis side of the lock: exclusion holds within one backend, and the in-memory one is modelled.
- Locks.DistributedLock.Acquire: the sleep between attempts is what other tasks do to the table meanwhile; the delay's length is not modelled.
- Slots.FindAvailableSlots: a host's time zone is a window per date; daylight saving enters only through that parameter, and the conversion of results to the prospect's zone for display is not modelled. A slot length of zero, with which the source never ends, is excluded.
- MeetingBooking.BookMeeting: the answers of the provider and of the commit are parameters; the texts of invitation and audit event are not modelled.
- Weak database isolation: each conflict query is taken to see every appointment committed before it, and a transaction that reads and writes without a commit or an outside call in between, such as a booking's or a launch's, is one step.
- Sequences.MailedOnceUnlessLostOrRevived: deliveries for one enrolment run one at a time, and a provider that accepts a mail also says so; a time-out after acceptance would be one more way to repeat a mail.
- LeadStates.CampaignLead.TransitionLeadState: a session's copy is the state alone: a terminal move is taken to clear the schedule even where the copy shows none to clear. Time stamps, reasons and payloads of events are not modelled.
- Decisions.StoppedHasNoTime: holds as far as a session's copy is its state alone, see above; a stopped row's time is never read.
- Campaigns.SendTask.Load: field names that do not exist on the models (`is_opted_out`, `custom_fields_json`, `title`, `WARMING`) are read as the fields they stand for; drafting and templates are one parameter.
- Campaigns.SendTask.Dispatch: whether the send lock is got and the credentials can be read are parameters, and threads and message fields are left out. The mailbox's cap and counter are those of the session's copy, so they do not hold under concurrent sends for different leads, whose locks differ.
- Campaigns.HandleReply: intent classification and drafting of replies; the model starts from the class of the reply.
- Deliveries.MailedExactlyWhenDue: exclusive claims and one delivery for each release are conditions, without which Deliveries.TwoSchedulersMailEarly is possible; the scheduler's batch size is not modelled.
- Pacing.MailsArePaced: the task is taken to calculate the next time at the moment it commits it.
- Manual edits of enrolments, leads and suppression entries, and the unsubscribe and bounce paths outside the inbound handler.
- CrmRecords.OutcomeKeepsOptOutExactly: the outcome task always calls HubSpot, so its effect on the other providers is a failed call; its retries and audit records are left out.
- CrmRecords.Normalize: the consent fields, the address and the record id; other fields, numeric JSON values, Pipedrive's address lists and the CRMs' own pagination are not modelled.
- Suppression.Store.InterceptInbound: models opt-outs whose commit happens; when it does not is the subject of Campaigns.OptOutLostExactly. Which text counts as an opt-out is a parameter.
- Suppression.Store.ImportContacts: lead scoring, lifecycle rules and the page loop around batches.
- Text.NormIdempotent: ASCII only; case folding and white space outside ASCII are not modelled.
- Stratify.StratifyUrls: scores and the path of a URL are parameters, so the keyword table behind the scores is not modelled; the words of each bucket are data.
- Crawl.RunScan: sitemap discovery, URL normalization, the robots parser, fetching and link extraction are parameters; documents, chunks, embeddings and the later extraction phase are left out.
- RateLimit.RateLimiter.Acquire: real numbers instead of floating point; requests retried after a 429 answer bypass the limiter and are not counted. The other CRMs' limiters are this one with other constants.
- Chunking.ChunkText: splitting text into paragraphs and words, joining words with spaces, and a chunk's metadata.
- Metering.Meter.RecordUsage: metadata and the column's digits.
- SendTime.CalculateNextSendTime: zones are fixed offsets, the random jitter is a parameter, and the calendar has no last year.
- Website facts, lead scoring, claim checking, intent taxonomy, qualification and telemetry: mostly single-pass branching that would add only easy members.
