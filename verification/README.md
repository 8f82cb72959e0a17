# StaffWeave verification

Machine-checked models of the parts of StaffWeave where several procedures, several processes or a whole
history have to agree. `dafny verify dfyconfig.toml` checks all of it.

| file | what it models |
|---|---|
| `Corrections.dfy` | punches, append-only corrections, the punches in effect, an approved punch correction |
| `WorkDay.dfy` | which punch a day accepts, what its punches add up to, the business date of a punch |
| `Receipts.dfy` | the server's transaction for device and card events: receipts, sequence, attendance rows |
| `FileSpool.dfy` | the agent's spool as files in a directory |
| `PunchProtocol.dfy` | station, sender, network and server together, with loss, delay, duplication and crashes |
| `Attendance.dfy` | versioned calculations, daily requests, monthly closings and snapshots of one employee |
| `Approval.dfy` | staged approval with a copied route per submission, delegation, the list that awaits a caller |
| `Outbox.dfy` | webhook outbox with leases, fencing tokens, retries and many workers |
| `Calendar.dfy`, `LeaveGrants.dfy` | due days, grant plans, the grant scheduler and the bulk grants beside it |
| `LeaveLedger.dfy` | leave balances, the register, the check before leave is taken, the ledger under its lock |
| `Migrator.dfy` | concurrent database migrations under an advisory lock |
| `Wrappers.dfy` | the optional value |

**How to read it.** What the source does step by step is a class with the same state and loops
(`PunchLog`, `DeviceStore`, `Station`, `Directory`, `Store`, `Desk`, `Scheduler`, `Connection`) or a method; each is
proved equal to a function of the old state. The main results are about those functions, over every run of a state
machine whose steps are the service calls. A database transaction is one step. Where the code guards an interleaving
itself (row locks, claim tokens, conditional updates, advisory locks) the steps are as small as the guard allows.

**Main results.**

- Whatever the network loses, delays or repeats and wherever the agent stops, a spooled punch has at most one attendance
  row, a sent one exactly one, no punch still spooled was ever refused as a replay, recorded punches keep the order of
  the queue, no punch is lost track of, and none is dropped without a final refusal of its own, so an outage drops
  nothing (`PunchProtocol`, on top of `Receipts` and `FileSpool`).
- The latest stored calculation of every day is absent or what a fresh calculation would give; a closed month does not
  move and its snapshot stays the summary of its values; the punches of a day that is handed in or approved move only with
  the approval of a correction of it (`Attendance`).
- A request is approved if and only if its current submission holds one approval per step in order, each authorised
  against the route copied for it; and somebody can decide a submitted one if and only if its current step was given an
  approver (`Approval`).
- A claim token finishes at most one row once, no row is claimed under a lease that runs, and with work that keeps to its
  time no two workers ever hold the same row; a row is completed if and only if a settled send of its own finished it
  (`Outbox`).
- Claimed grant days have no hole and no double, however runs interleave and fail; catching up makes progress exactly
  when a due day lies in the window (`LeaveGrants`).
- A leave balance neither creates nor loses minutes, a reversal cancels the row it names on every date, a grant never
  lowers a balance of any date, and with a check of every day on which a balance can fall no interleaving of grants,
  adjustments and approvals turns one negative. With the check as it is written that holds exactly of the runs whose
  commits are not negative after an expiry (`LeaveLedger`).
- Concurrent migrations commit each file once, in order, leaving a prefix of the directory (`Migrator`).

**Where the code does less than its comments or its callers may expect.** Each has a lemma.

- `packages/domain/src/leave/ledger.ts:189-194` and `:238-243` check a balance only on the dates of ledger rows, on the ground
  that it moves on no other date. It also moves when a grant expires: leave taken on the day of a grant whose row gets a
  smaller id passes the check and turns negative later (`LeaveLedger.AcceptedMayTurnNegative`). What passed is negative on
  no date if and only if it is not negative on the days after an expiry, from the earliest proposed day on
  (`LeaveLedger.AcceptedIsNeverNegativeIff`; over runs `LeaveLedger.RunStaysUpIff`), which is so when the rows of a day
  that add sort before those that take (`LeaveLedger.RunInOrderStaysUp`). Whatever rows are added to a ledger that is
  nowhere negative, it stays so if and only if it is not negative on the days on which something is taken and the days
  after an expiry (`LeaveLedger.NeverNegativeIff`).
- `packages/domain/src/leave/ledger.ts:255-256` mean the identifier of a proposed row to sort last. The comparison is
  `localeCompare`, whose collation puts `~` ahead of digits and letters, so it sorts first; that is the careful side
  (`LeaveLedger.PlaceholdersAreTheWorstCase`).
- `resubmit` keeps the number of steps of the first submission and copies the steps the type has now. Every step gets an
  approver if and only if the type has not lost steps (`Approval.ResubmissionHasApproversIff`); otherwise the request is
  stuck at the first step without one (`Approval.StepWithoutApproverIsStuck`).
- Signature and time of a device event are checked before its receipt is looked up, so a resend of a recorded punch is
  refused for good if and only if one of the two fails (`PunchProtocol.ResendIsRefusedIff`), and the agent then drops the
  punch: `PunchProtocol.RecordedThenDropped` is such a run. A dropped punch has a row or may still get one if and only if
  it was accepted, or a copy of it is under way, without a receipt, ahead of everything accepted
  (`PunchProtocol.DroppedHasOrGetsARowIff`; `PunchProtocol.DroppedThenRecorded` is a run of the second kind). Where
  punches are dropped on stored rejections only, no dropped punch has a row (`PunchProtocol.DroppedIsUnrecorded`).
- A lease of exactly the send timeout plus 5000 ms allows two workers on one row when the work takes all of it
  (`Outbox.AtTheDeadlineTheClaimIsLost`); strictly less never does.
- With hire-anniversary grants somebody hired on 29 February has an anniversary only in leap years
  (`Calendar.AnniversaryComesIff`).
- A punch is judged by the state of the day, not by its own time. It is passed over afterwards if and only if the state of
  the punches up to its own time does not accept it (`WorkDay.PassedOverIff`), as a break that starts before the clock-in
  (`WorkDay.BackdatedPunchIsPassedOver`). A later punch that was in effect starts being passed over if and only if the
  phase of the day before it changes, and the one right after a punch that takes effect always does
  (`WorkDay.LaterPunchGivesWayIff`).
- Names of spooled punches sort by number up to twelve digits only (`FileSpool.NumberingBreaksAtTheLimit`).
- The anomaly report takes for in effect what is neither void nor named by a correction. That differs from the effective
  punches if and only if such a row lost to another correction of its target, or follows one that did
  (`Corrections.InEffectIff`, `Corrections.LoserIsReported`).

## Model

| member | source | states |
|---|---|---|
| `Corrections.IndexCorrections` | packages/domain/src/attendance/corrections.ts:51-66 | for every target the map holds the latest recorded correction, of equals the last listed, and nothing else |
| `Corrections.CorrectionIsTheLatest` | packages/domain/src/attendance/corrections.ts:51-66 | the correction that wins is the row of the greatest time of recording, the last listed among equals, and there is none exactly when no row corrects the target |
| `Corrections.ResolveEffectiveEvents` | packages/domain/src/attendance/corrections.ts:51-104 | the loop over chains, cycles included, yields exactly the effective events, in the order of time |
| `Corrections.SortIsAPermutation` | packages/domain/src/attendance/corrections.ts:103 | sorting changes the order and nothing else |
| `Corrections.PunchLog.RewritePunches` | packages/api/src/request/service.ts:448-525 | appends one void per effective clock punch and the requested pair, changing no stored row |
| `Corrections.PunchLog.VoidClocks` | packages/api/src/request/service.ts:488-507 | the loop voids every effective clock punch and no break |
| `Corrections.FollowAfterRewrite` | packages/domain/src/attendance/corrections.ts:73-88 | a chain that no void row names ends where it ended before the rewrite |
| `Corrections.ResolveAfterRewrite` | packages/domain/src/attendance/corrections.ts:73-98 | after the rewrite an old root has its old effect if that was a break, and none if it was a clock punch |
| `Corrections.RewritePunchesRewrites` | packages/api/src/request/service.ts:448-525 | the stored log after the procedure is a rewrite of the history it read |
| `Corrections.RewriteTakesEffect` | packages/api/src/request/service.ts:448-525 | for any earlier corrections the effective punches become the old effective breaks and the requested pair, in any listing that keeps the old rows' order |
| `Corrections.OneMoreTakesEffect` | packages/domain/src/attendance/corrections.ts:51-104 | a new punch is in effect beside all others; the correction of a punch in effect takes its place, or takes it away when it is a void; every other punch in effect stays |
| `Corrections.InEffectIff` | packages/api/src/audit/anomaly-repository.ts:169-196 | a row is in effect if and only if the report lists it and every correction on the way to it won |
| `Corrections.WithoutForksTheReportAgrees` | packages/api/src/audit/anomaly-repository.ts:169-196 | when no row is corrected twice and no void is corrected, the report lists exactly the rows in effect |
| `Corrections.LoserIsReported` | packages/api/src/audit/anomaly-repository.ts:169-196 | of two adjustments of one punch the earlier is listed and not in effect |
| `WorkDay.SummarizeWorkDay` | packages/domain/src/attendance/events.ts:122-161 | the loop over sorted events, passing over those the state rejects, gives the folded summary |
| `WorkDay.DayIsSound` | packages/domain/src/attendance/events.ts:122-161 | sessions are disjoint and in order, only the last may be open and is exactly while the day is, every break lies inside a session |
| `WorkDay.SummaryOfThePunchesInEffect` | packages/domain/src/attendance/events.ts:122-161 | the k-th session runs from the k-th clock-in in effect to the k-th clock-out, breaks likewise; state, first clock-in and last clock-out are those of the punches in effect |
| `WorkDay.PunchIsTakenIff` | packages/domain/src/attendance/events.ts:64-89 | which punch a day takes and which rejection it gives otherwise, in numbers of punches in effect |
| `WorkDay.PassedOverIff` | packages/domain/src/attendance/events.ts:122-161 | a new punch is passed over if and only if the state of the punches up to its time rejects it, and then nothing of the day changes |
| `WorkDay.LaterPunchGivesWayIff` | packages/domain/src/attendance/events.ts:122-161 | a later punch in effect starts being passed over if and only if the phase before it changes; the one right after a punch that takes effect does |
| `WorkDay.LatestPunchTakesEffect` | packages/api/src/attendance/record.ts:145-160 | an accepted punch that is the latest of its day moves the day to the state it was accepted for |
| `WorkDay.BackdatedPunchIsPassedOver` | packages/api/src/attendance/record.ts:145-160 | a break starting before the only clock-in is accepted and then has no effect |
| `WorkDay.PunchGoesToAnOpenDay` | packages/api/src/attendance/record.ts:78-94 | a clock-in goes to its own date; any other punch is accepted only onto an open day, and goes to one whenever the date or the one before is open |
| `WorkDay.CardTouchIsAlwaysAccepted` | packages/api/src/card/service.ts:355-382 | the punch a card touch decides is accepted by the day it is recorded on, whatever the two days are |
| `Receipts.KeysAreInjective` | packages/api/src/device/service.ts:69-71 | idempotency keys of device and card events agree only for one kind, device and request |
| `Receipts.DeviceStore.FindEventByKey` | packages/api/src/attendance/record.ts:113 | finds a row with the employee and key, or there is none |
| `Receipts.DeviceStore.RecordAttendance` | packages/api/src/attendance/record.ts:100-232 | a stored row is returned unchanged, else one row is appended or nothing is |
| `Receipts.DeviceStore.Record` | packages/api/src/device/service.ts:202-378 | the transaction as a function of the old state: replay of a receipt, rejections with their receipts, acceptance |
| `Receipts.InitialInv` | packages/api/src/device/repository.ts:342-407 | a newly enrolled device satisfies the receipt invariant |
| `Receipts.FreshReceiptIsNeverADuplicate` | packages/api/src/device/service.ts:338-356 | a request without a receipt never finds a row, so the outcome duplicate of a fresh receipt cannot happen |
| `Receipts.FreshAnswerIs` | packages/api/src/device/service.ts:231-374 | which answer or refusal a request without a receipt gets, the first reason that applies; an accepted one leaves one row of its own type, date and key, and its number; only accepted and refused ones leave a receipt, which holds the answer |
| `Receipts.HandleKeepsInv` | packages/api/src/device/service.ts:247-374 | every transaction keeps the invariant and changes no stored receipt and no stored row |
| `Receipts.ForeignEventKeepsAcceptances` | packages/api/src/attendance/record.ts:150-180 | rows of other sources leave a device's acceptances as they are |
| `Receipts.AcceptedReceiptsAndEventsCorrespond` | packages/api/src/card/service.ts:382-445 | accepted receipts and device rows are in bijection in the order of the sequences, the last sequence is the largest accepted one or the start, and each stored step reaches back to the acceptance before it |
| `Receipts.RunKeepsReceipts` | packages/api/src/device/repository.ts:377-407 | over any run the invariant holds and no receipt or row changes |
| `Receipts.ResendIsDeterministic` | packages/api/src/card/service.ts:85-118 | after any run a resend gets the same rejection, or the same row, type, date and step, and changes nothing |
| `FileSpool.LessIsTotal` | packages/agent/src/service/spool.ts:119-123 | the order of names is total and strict |
| `FileSpool.PaddedRoundTrip` | packages/agent/src/service/spool.ts:106-108 | padding and reading a number below the limit gives it back, with exactly the width |
| `FileSpool.NamesSortByNumber` | packages/agent/src/service/spool.ts:105-108 | names sort by their numbers up to twelve digits, whatever the ids |
| `FileSpool.NumberingBreaksAtTheLimit` | packages/agent/src/service/spool.ts:105-108 | the first number with thirteen digits sorts before its predecessor |
| `FileSpool.SuffixNamesThePunch` | packages/agent/src/service/spool.ts:162-168 | the end of a name picks out exactly the punches with that id or an id that ends in a hyphen and it |
| `FileSpool.SameLengthNamesOne` | packages/agent/src/service/spool.ts:162-168 | ids of one length, as generated ones are, pick out only themselves |
| `FileSpool.ListingIsTheQueue` | packages/agent/src/service/spool.ts:119-123 | sorting the pending names gives the queue in the order in which it was filled |
| `FileSpool.Directory.Entries` | packages/agent/src/service/spool.ts:119-123 | the pending names, each once, in order |
| `FileSpool.Directory.Add` | packages/agent/src/service/spool.ts:126-138 | the punch goes behind all others; a stop before the rename leaves the queue as it was |
| `FileSpool.Directory.List` | packages/agent/src/service/spool.ts:140-160 | returns the readable punches in order, sets damaged files aside without losing them and leaves the others queued |
| `FileSpool.Directory.Remove` | packages/agent/src/service/spool.ts:162-168 | the directory then holds the queue without the punches picked out, that one alone when no other id ends in a hyphen and it |
| `FileSpool.KeepIsExcept` | packages/agent/src/service/spool.ts:140-168 | taking files away is what the protocol calls taking punches out of the spool |
| `PunchProtocol.FirstRetry` | packages/agent/src/service/runner.ts:46-74 | where a flush stops: at the first retry, with none before |
| `PunchProtocol.StopsAtTheFirstOutage` | packages/agent/src/service/sender.ts:51-58 | in statuses: a flush passes successes and final refusals and stops at the first send without a response or with 408, 429 or at least 500 |
| `PunchProtocol.Station.constructor` | packages/agent/src/cli.ts:97-118 | the first number after enrolment is one past the server's |
| `PunchProtocol.Station.AllocateSequence` | packages/agent/src/cli.ts:308-313 | the number is taken once and the next one stored before it is used |
| `PunchProtocol.Station.ReadCardIntoSpool` | packages/agent/src/service/station.ts:48-79 | a stop between taking the number and spooling loses the number, never reuses it |
| `PunchProtocol.Station.FlushSpool` | packages/agent/src/service/runner.ts:41-77 | given what each send leads to, exactly the punches before the first retry leave the spool, with punches arriving meanwhile kept behind, and the counts say so |
| `PunchProtocol.RemoveHead` | packages/agent/src/service/runner.ts:50-56 | removing the head's id takes the head and nothing else |
| `PunchProtocol.HeadIsAhead` | packages/api/src/device/service.ts:294-301 | the server's last sequence is below any spooled punch that was sent and has no receipt |
| `PunchProtocol.StepIsSafe` | packages/agent/src/service/runner.ts:41-116 | each step of agent, network and server keeps the invariant |
| `PunchProtocol.RunIsSafe` | packages/agent/src/service/runner.ts:41-116 | every reachable state satisfies it |
| `PunchProtocol.FailedSend` | packages/agent/src/service/runner.ts:46-74 | a send without a response, or with 408, 429 or at least 500, moves nothing and ends the flush; any other error status drops the head alone |
| `PunchProtocol.AnsweredSend` | packages/agent/src/service/sender.ts:60-94 | an acceptance moves the head to sent, any other answer of the server drops it |
| `PunchProtocol.PunchesLeaveForAReason` | packages/agent/src/service/runner.ts:41-116 | over any run a dropped punch had a final refusal of its own and a sent one an acceptance of its own |
| `PunchProtocol.OutagesDropNothing` | packages/agent/src/service/sender.ts:45-58 | a run in which nothing but outages goes wrong drops nothing |
| `PunchProtocol.HeadCanGetThrough` | packages/agent/src/service/runner.ts:41-77 | from every safe state without a flush under way the head of the spool can reach its end when nothing is lost and the server takes it: it leaves the spool, alone, as sent and accepted, unless an answer on record refuses it |
| `PunchProtocol.AtMostOneEventPerPunch` | packages/api/src/device/service.ts:247-374 | a spooled punch has at most one attendance row, wherever it ended |
| `PunchProtocol.SentHasExactlyOneEvent` | packages/agent/src/service/runner.ts:49-53 | a punch removed as sent has exactly one |
| `PunchProtocol.NoSpooledPunchIsEverRefusedAsAReplay` | packages/agent/src/service/station.ts:48-79 | no answer ever given to a punch still spooled is the replay rejection |
| `PunchProtocol.RecordedInQueueOrder` | packages/agent/src/service/spool.ts:126-160 | recorded punches stand in the attendance table in the order of the queue |
| `PunchProtocol.NoPunchIsLost` | packages/agent/src/service/runner.ts:46-76 | every spooled punch is in exactly one of spool, sent, dropped and unreadable |
| `PunchProtocol.ResendIsRefusedIff` | packages/api/src/device/service.ts:231-251 | the answer to a resend of a recorded punch makes the agent drop it if and only if signature or time is refused |
| `PunchProtocol.LateResendDropsARecordedPunch` | packages/api/src/device/service.ts:231-251 | from any safe state a resend outside the time window drops a punch that stays recorded |
| `PunchProtocol.RecordedThenDropped` | packages/api/src/device/service.ts:231-251 | a run from the start that drops a recorded punch |
| `PunchProtocol.DroppedThenRecorded` | packages/agent/src/service/runner.ts:41-77 | a run from the start that drops a punch without a row of which a copy can still be recorded |
| `PunchProtocol.DroppedIsUnrecorded` | packages/agent/src/service/runner.ts:41-116 | over any run that drops punches on stored rejections only, no dropped punch has a row |
| `PunchProtocol.DroppedHasOrGetsARowIff` | packages/agent/src/service/runner.ts:41-116 | a dropped punch has a row, or gets one in some continuation, if and only if it was accepted, or a copy without a receipt and ahead of the last sequence is under way |
| `Attendance.FindApprovedAdjustments` | packages/api/src/request/repository.ts:648-678 | the loop gives the adjustments of the approved requests that cover the day |
| `Attendance.AdjustmentsAreOrderFree` | packages/api/src/request/repository.ts:664-677 | the result is the largest limit, never below zero, and whether there is holiday work; the order of rows does not matter |
| `Attendance.ApprovalAffectsExactlyItsDates` | packages/api/src/request/repository.ts:680-691 | an approval can change the adjustments of a day if and only if it covers it and sets a limit or is holiday work |
| `Attendance.Store.RecalculateWorkDay` | packages/api/src/attendance/day.ts:253-287 | a version is stored exactly when the input differs from the latest one's |
| `Attendance.Store.RecordPunch` | packages/api/src/attendance/record.ts:135-232 | accepted if and only if the day is editable and the state of its effective punches allows the punch; then one row and one recalculation |
| `Attendance.Store.CorrectPunch` | packages/api/src/attendance/service.ts:230-305 | accepted if and only if the target is a row of the day and the day editable; then one row and one recalculation |
| `Attendance.Store.InsertPunch` | packages/api/src/attendance/service.ts:252-305 | the end of both: refused unless the day is editable, else one row and one recalculation |
| `Attendance.Store.MoveRequest` | packages/api/src/approval/service.ts:127-290 | refused for a closed month on submit and for a move the machine does not have, else stored with its transition |
| `Attendance.Store.ApplyApproved` | packages/api/src/request/service.ts:393-437 | refused when a covered day is closed, else punches and calculations of all covered days follow |
| `Attendance.Store.RewriteDay` | packages/api/src/request/service.ts:448-525 | the day's log gets the rows of the rewrite |
| `Attendance.Store.RecalculateRange` | packages/api/src/monthly/service.ts:275-311 | skips and names exactly the closed days, recalculates exactly those with punches, schedule or versions |
| `Attendance.Store.CloseMonth` | packages/api/src/approval/service.ts:340-402 | refused while a day with punches is not approved; stores closing and snapshot |
| `Attendance.Store.ReopenMonth` | packages/api/src/approval/service.ts:424-475 | every approved request of the month goes back with its transition, no other changes |
| `Attendance.RecalculatedAllEffect` | packages/api/src/request/service.ts:427-436 | recalculating a list of days recomputes each of them once and nothing else |
| `Attendance.StepKeepsDates` | packages/api/src/attendance/day.ts:253-287 | every step leaves every day fresh, its versions 1..n and its transitions a chain |
| `Attendance.MovedIsAChain` | packages/api/src/approval/service.ts:158-178 | a move keeps transitions an unbroken chain from draft to the stored state, counted by the counters |
| `Attendance.ReopenKeepsDates` | packages/api/src/approval/repository.ts:368-382 | the bulk update keeps every chain |
| `Attendance.CloseKeepsMonth` | packages/api/src/monthly/repository.ts:311-319 | closing keeps snapshots numbered 1..n with n the reopenings plus one |
| `Attendance.ClosedMonthIsUntouched` | packages/api/src/attendance/record.ts:58-69 | no step but its own reopening changes a punch, a version, a closing or a snapshot of a closed month |
| `Attendance.PunchIsTakenIff` | packages/api/src/attendance/record.ts:58-69 | a punch or a correction is taken if and only if the month is not closed, the day has no request or a draft, returned or cancelled one, and the state of the day or the target allows it |
| `Attendance.HandedInDayKeepsItsPunches` | packages/domain/src/approval/daily-request.ts:112-114 | while the request of a day is submitted or approved, no step but the approval of a correction of that day changes its punches, closed month or not |
| `Attendance.HandedInDayStays` | packages/api/src/attendance/day.ts:222-224 | the same over any run, for as long as the day stays handed in |
| `Attendance.RequestMovesIff` | packages/domain/src/approval/daily-request.ts:36-75 | exactly from which states a day may be submitted, approved, returned or withdrawn, and the state it then has |
| `Attendance.PunchTakesEffect` | packages/api/src/attendance/service.ts:230-305 | recording or correcting leaves one more row and its day calculated afresh, nothing else; a new punch is in effect beside the others, an adjusted one has its new type and time, a voided one is gone |
| `Attendance.RecalculationReaches` | packages/api/src/monthly/service.ts:275-311 | exactly the days of the range in months that are not closed, with punches, schedule or versions, get their latest version from the input they have now |
| `Attendance.ClosingIs` | packages/api/src/approval/service.ts:340-402 | exactly which months can be closed; that leaves the closing and one more snapshot and nothing else |
| `Attendance.ReopeningIs` | packages/api/src/approval/service.ts:424-475 | exactly which months can be reopened; every approved day of it is returned with its transition and nothing else moves |
| `Attendance.ApprovalIsReflectedIff` | packages/api/src/request/service.ts:393-437 | exactly which requests can be approved: overtime, holiday work and corrections unless they cover a day of a closed month |
| `Attendance.ApprovalReaches` | packages/api/src/request/service.ts:393-437 | an approval joins the approved requests, its days are calculated afresh from them, and nothing else changes but the punches of a correction |
| `Attendance.StepKeepsInv` | packages/api/src/approval/service.ts:340-475 | every step keeps days and months in order |
| `Attendance.CacheIsCoherent` | packages/api/src/attendance/day.ts:253-287 | in every reachable state the latest version of a day is absent or the fresh calculation, versions run 1..n and neighbours differ |
| `Attendance.ClosedMonthIsFrozen` | packages/api/src/monthly/service.ts:96-99 | while a month stays closed its days are approved, unchanged, and the latest snapshot is their summary, so nothing drifts |
| `Attendance.ApprovedCorrectionTakesEffect` | packages/api/src/request/service.ts:424-436 | in every state kept by the steps an approved correction leaves old rows and makes the effective punches old breaks and requested pair |
| `Approval.AttributionIsTrue` | packages/domain/src/approval/approval-route.ts:76-108 | a decision is attributed to the step's own approver, who is the caller or delegated to the caller |
| `Approval.DecisionIsAcceptedIff` | packages/api/src/request/service.ts:797-881 | exactly which decisions are accepted, in the policy of the current step, the roles and the delegations of the caller |
| `Approval.ApprovalCanBeReached` | packages/domain/src/approval/approval-route.ts:76-108 | a submission whose remaining steps each have a copy that somebody fits is approved when those approve one after the other |
| `Approval.ApprovedIffEveryStepApproved` | packages/api/src/request/service.ts:797-881 | approved if and only if the current submission has one approval per step in order, all decisions authorised against their copy |
| `Approval.StepIsNeverStoredTwice` | packages/api/src/request/service.ts:853-871 | with each call one transaction the once-per-step rule never refuses a decision that passed the machine |
| `Approval.SubmitIsOk` | packages/api/src/request/service.ts:739-764 | a submission starts with an approver for every step |
| `Approval.DecideKeepsOk` | packages/api/src/request/service.ts:797-881 | an accepted decision keeps the history in step order |
| `Approval.SubmitAgainKeepsOk` | packages/api/src/request/service.ts:974-1017 | a resubmission starts over and leaves earlier submissions ended by a return |
| `Approval.CancelKeepsOk` | packages/api/src/request/service.ts:1040-1058 | a withdrawal keeps the history |
| `Approval.ResubmissionHasApproversIff` | packages/api/src/request/service.ts:1000-1016 | after a resubmission every step has an approver if and only if the type has at least as many steps as the request |
| `Approval.StepWithoutApproverIsStuck` | packages/api/src/request/service.ts:819-827 | nobody can decide a step without an approver |
| `Approval.CopiedSteps` | packages/api/src/request/repository.ts:471-481 | the copy adds exactly the steps 1..n of the submission and never replaces a copied one |
| `Approval.AwaitingIffDecidable` | packages/api/src/request/service.ts:690-724 | a caller who may approve and sees the employee could decide now, naming nobody, if and only if the request is listed; a return needs a reason, the last approval that ledger and attendance take it |
| `Approval.Desk.StoreRoute` | packages/api/src/request/service.ts:594-644 | for a type that exists, accepted if and only if every step occurs once with a fitting approver, then the route is exactly those steps |
| `Approval.Desk.NoStepMissing` | packages/api/src/request/service.ts:173-194 | true if and only if every step has an approver |
| `Approval.Desk.SnapshotSteps` | packages/api/src/request/repository.ts:471-481 | the inserts give the copy of the route |
| `Approval.Desk.Submitting` | packages/api/src/request/service.ts:726-764 | refused without a complete route, else stored with its copy |
| `Approval.Desk.Resubmitting` | packages/api/src/request/service.ts:974-1017 | refused unless returned and the route complete, else stored with a new copy |
| `Approval.Desk.Deciding` | packages/api/src/request/service.ts:797-896 | the checks in their order, from the comment to what the last approval is reflected in; accepted exactly when all pass, then decision and state together |
| `Approval.Desk.AwaitingMe` | packages/api/src/request/service.ts:690-724 | of the visible requests, lists exactly those that a caller who may approve could decide now without naming a principal |
| `Approval.RunKeepsCopies` | packages/api/src/request/repository.ts:456-481 | over any run a copied step never changes, whatever becomes of routes and types |
| `Approval.RunApprovesOnlyByRoute` | packages/api/src/request/service.ts:797-881 | in every reachable state approved means one authorised approval per step in order |
| `Approval.RunIsStuckIff` | packages/api/src/request/service.ts:819-827 | in every reachable state somebody can decide a submitted request if and only if its current step has been given an approver |
| `Approval.PairedIff` | packages/api/src/request/service.ts:594-644 | an approver names a user exactly when its policy does: that is when somebody can decide the step and nobody is named whom the policy does not ask for |
| `Outbox.Store.Pick` | packages/api/src/integration/outbox-repository.ts:130-140 | the oldest claimable row that is not locked, or there is none |
| `Outbox.PickIsOldest` | packages/api/src/integration/outbox-repository.ts:130-140 | in columns: nothing that waits, is due and is under no running lease has been due for longer than the picked row |
| `Outbox.Store.ClaimNext` | packages/api/src/integration/outbox-repository.ts:127-179 | claims the picked row under the lease with the new token and changes no other |
| `Outbox.Store.FinishRow` | packages/api/src/integration/outbox-repository.ts:181-225 | succeeds exactly when the token is the row's and the row unfinished |
| `Outbox.Store.Requeue` | packages/api/src/integration/outbox-repository.ts:258-270 | only an abandoned row goes back, with its attempts at zero |
| `Outbox.Store.Deliver` | packages/api/src/integration/delivery-processor.ts:103-177 | one finishing call, and the columns it leaves in terms of the result of the send and the attempts that were read |
| `Outbox.DeliveryInColumns` | packages/domain/src/integration/retry.ts:58-64 | completed when the send succeeded, was skipped or was answered below 500 other than with 408 and 429; else one more attempt, and waiting for the next or, at the maximum, abandoned |
| `Outbox.StepKeepsInv` | packages/api/src/integration/outbox-repository.ts:109-270 | every step keeps rows, log and workers in agreement |
| `Outbox.WaitsFromNowOn` | packages/api/src/integration/outbox-repository.ts:109-125 | an enqueued or requeued row may be claimed at once and has all its attempts; no other row changes |
| `Outbox.ClaimRespectsLeases` | packages/api/src/integration/outbox-repository.ts:130-140 | a claim finds every earlier claim of the row finished or its lease over |
| `Outbox.RunIsFenced` | packages/api/src/integration/outbox-repository.ts:127-225 | every finishing call used the newest claim of its row, nothing in between; every claim waited for the earlier one's end or lease |
| `Outbox.EachTokenFinishesOnce` | packages/api/src/integration/outbox-repository.ts:181-225 | two successful finishing calls never share a token |
| `Outbox.EveryRowIsAccountedFor` | packages/api/src/integration/outbox-repository.ts:109-270 | no row vanishes, none is both completed and abandoned, claim columns go together, attempts are those since the last requeue and below the maximum while pending |
| `Outbox.CompletedIffDelivered` | packages/api/src/integration/delivery-processor.ts:118-162 | over any run a row is completed if and only if a settled send of its own finished it, and its attempts are the sends since the last requeue that were not settled |
| `Outbox.StepKeepsExclusive` | packages/api/src/config.ts:348-354 | with a loaded configuration and work in time, a step leaves each worker alone on its row |
| `Outbox.TimelyWorkersNeverCollide` | packages/api/src/integration/sender.ts:71-112 | over any timely run no two workers hold a row and no finishing call is refused |
| `Outbox.AtTheDeadlineTheClaimIsLost` | packages/api/src/integration/outbox-repository.ts:134-136 | at the very end of the lease another worker can claim the row and the first one's call is refused |
| `Calendar.DateOfNumber` | packages/domain/src/attendance/business-date.ts:95-105 | day numbers and dates name each other |
| `Calendar.YearsInClosedForm` | packages/domain/src/attendance/business-date.ts:95-105 | the days before a year, with a leap day every fourth year but in three of four centuries |
| `Calendar.MonthsInClosedForm` | packages/domain/src/attendance/business-date.ts:95-105 | the days before a month |
| `Calendar.Epoch` | packages/domain/src/attendance/business-date.ts:95-105 | the first day of 1970, from which the platform counts, has number 719162 |
| `Calendar.ComesAround` | packages/db/migrations/0040_create_leave_grant_runs.sql:28-31 | a month and a day up to the 28th comes around within any 366 days |
| `Calendar.ServiceOnlyGrows` | packages/domain/src/leave/grant.ts:34-51 | months of service never shrink with time and are not negative after hiring |
| `Calendar.ServedIff` | packages/domain/src/leave/grant.ts:34-51 | the months of service are those completed: a month counts from the day of hire in it |
| `Calendar.MonthsLater` | packages/domain/src/attendance/business-date.ts:73-84 | adding months never goes back, keeps the order of dates, and gives as many months of service, one less when the day is cut to the end of the month |
| `Calendar.ExpiryFollowsTheGrant` | packages/api/src/leave/service.ts:66-69 | a grant expires so many months after its day, not before its day, and a later grant never before an earlier one |
| `Calendar.AnniversaryComesIff` | packages/domain/src/leave/grant.ts:89-91 | an anniversary comes in a year unless hired on 29 February and the year is not a leap year |
| `LeaveGrants.DueDaysAre` | packages/domain/src/leave/grant.ts:154-180 | exactly the due days of the range, ascending |
| `LeaveGrants.LeaveGrantDatesBetween` | packages/domain/src/leave/grant.ts:154-180 | the loop gives those days, and none while the fixed date is not set |
| `LeaveGrants.BestRuleIsTheHighestReached` | packages/domain/src/leave/grant.ts:59-67 | the chosen step is reached, no reached step is higher, and of equal ones it is the first listed; none is chosen only when none is reached |
| `LeaveGrants.PlanLeaveGrants` | packages/domain/src/leave/grant.ts:100-138 | every candidate is granted or skipped with its reason |
| `LeaveGrants.PlanIs` | packages/domain/src/leave/grant.ts:100-138 | in dates, completed months and steps: exactly who is granted how much, and for which reason anybody else is left out |
| `LeaveGrants.GrantsAreDistinct` | packages/domain/src/leave/grant.ts:100-138 | nobody is planned twice |
| `LeaveGrants.Scheduler.FindLastGrantRun` | packages/api/src/leave/repository.ts:399-407 | the latest day that was run |
| `LeaveGrants.Scheduler.PendingDates` | packages/api/src/leave/grant-scheduler.ts:103-123 | the due days after it, within the catch-up limit and not after today |
| `LeaveGrants.Scheduler.AddGrants` | packages/api/src/leave/grant-scheduler.ts:156-179 | one row, with its expiry, for each planned employee that has none for the day |
| `LeaveGrants.Scheduler.RunDay` | packages/api/src/leave/grant-scheduler.ts:131-216 | claim, grants and counts together or nothing |
| `LeaveGrants.DayGrantsWhatIsDue` | packages/api/src/leave/grant-scheduler.ts:131-216 | a day leaves a row, with its minutes and expiry, for exactly those who are due one and have none from rules or imports, and a record that counts them and all other candidates; a bulk grant leaves the same rows |
| `LeaveGrants.Scheduler.GrantInBulk` | packages/api/src/leave/grant-service.ts:173-251 | the same rows without a claim |
| `LeaveGrants.Scheduler.Run` | packages/api/src/leave/grant-scheduler.ts:219-249 | the pending days in order, up to the first that fails |
| `LeaveGrants.Scheduler.Preview` | packages/api/src/leave/grant-scheduler.ts:267-308 | the first pending day with its counts |
| `LeaveGrants.PreviewIsTheNextDay` | packages/api/src/leave/grant-scheduler.ts:267-308 | the preview is exactly the day and counts that the next run records first |
| `LeaveGrants.PendingContinues` | packages/api/src/leave/grant-scheduler.ts:103-123 | a run's list leaves out no due day that is not claimed |
| `LeaveGrants.PlanRowsAreNew` | packages/api/src/leave/grant-service.ts:209-232 | the rows of a plan never give an employee a second bulk grant for a day |
| `LeaveGrants.HistoryKeepsInv` | packages/api/src/leave/grant-scheduler.ts:131-249 | over interleaved runs, failing days and manual grants: no hole, each claimed day has the grants it counts, nobody two for a day |
| `LeaveGrants.HistoryOutlives` | packages/db/migrations/0029_create_leave_ledger.sql:71-72 | over any history no row of the ledger expires before its day |
| `LeaveGrants.EachRunCatchesUp` | packages/api/src/leave/grant-scheduler.ts:111-122 | when a due day comes within the limit each failure-free run leaves fewer unclaimed days, until none |
| `LeaveGrants.UndisturbedRunIs` | packages/api/src/leave/grant-scheduler.ts:219-249 | from every state the steps of a run that nothing disturbs can be taken, and leave what the procedure leaves |
| `LeaveGrants.RunAdvancesIff` | packages/api/src/leave/grant-scheduler.ts:111-122 | a run changes something if and only if a due day lies in its window |
| `LeaveGrants.DefaultLimitIsEnough` | packages/api/src/leave/grant-scheduler.ts:84 | 400 days, and 366, are enough for every leave type the table accepts |
| `LeaveGrants.ShorterLimitGetsStuck` | packages/api/src/leave/grant-scheduler.ts:84 | 365 days are not: before a leap day a run finds nothing, ever |
| `LeaveLedger.LapseBefore` | packages/domain/src/leave/ledger.ts:86-93 | empties exactly the lapsed buckets and counts what they held |
| `LeaveLedger.Take` | packages/domain/src/leave/ledger.ts:100-113 | takes from the soonest to expire, the rest becomes a negative bucket |
| `LeaveLedger.BuildLeaveBalance` | packages/domain/src/leave/ledger.ts:56-155 | the loops give the balance, the buckets left and what expired |
| `LeaveLedger.RemainingIsTheBalance` | packages/domain/src/leave/ledger.ts:147-155 | what is shown as remaining is every bucket that is not empty, and adds up to the balance |
| `LeaveLedger.BalanceConserves` | packages/domain/src/leave/ledger.ts:56-155 | at every date available and expired minutes add up to what the counted rows gave and took |
| `LeaveLedger.CountsIff` | packages/domain/src/leave/ledger.ts:40-62 | a row counts on a date if and only if it is not later, no reversal and not named by one |
| `LeaveLedger.ReversalCancels` | packages/domain/src/leave/ledger.ts:40-62 | on every date the balance with a reversal is that of the ledger with neither the reversal nor the row it names |
| `LeaveLedger.RegisterAddsUp` | packages/domain/src/leave/ledger.ts:282-310 | opening, granted, consumed, expired and adjusted minutes give the closing balance |
| `LeaveLedger.RegisterColumns` | packages/domain/src/leave/ledger.ts:282-310 | one more row moves the column of its own kind by its minutes, when its day lies in the period, and no other column |
| `LeaveLedger.DecrementMeasures` | packages/domain/src/leave/ledger.ts:86-113 | what a decrement leaves usable on each day, in all, and as debt |
| `LeaveLedger.ExpireTakesWhatHasExpired` | packages/domain/src/leave/ledger.ts:129-134 | a recorded expiry takes from what has expired and from nothing that can still be used; the rest is owed |
| `LeaveLedger.LeaveIsUsedInOrder` | packages/domain/src/leave/ledger.ts:70-113 | leave is taken from what expires soonest and, of grants that expire together, from the smallest id; while a bucket has something left none used after it is touched |
| `LeaveLedger.AddingAGrantNeverLowersABalance` | packages/domain/src/leave/ledger.ts:115-141 | one more grant at whatever date lowers the balance of no date |
| `LeaveLedger.ValidateConsumptions` | packages/domain/src/leave/ledger.ts:213-253 | with placeholder rows for what is proposed: insufficient if and only if a balance on a ledger date from the earliest on is negative; not a multiple if and only if an amount is not |
| `LeaveLedger.GreaterIdsLeaveNoLess` | packages/domain/src/leave/ledger.ts:62-68 | a row that takes gives every date at least the balance it gives with a smaller id |
| `LeaveLedger.PlaceholdersAreTheWorstCase` | packages/domain/src/leave/ledger.ts:221-230 | no date has less with the appended rows than with the placeholders that were checked, whatever ids the rows get |
| `LeaveLedger.SolventMeansNeverNegative` | packages/domain/src/leave/ledger.ts:147-155 | without debt no date shows a negative balance, whether a row falls on it or not |
| `LeaveLedger.QuietDay` | packages/domain/src/leave/ledger.ts:86-155 | a day on which nothing is taken and before which nothing expires shows no less than the day before |
| `LeaveLedger.NeverNegativeIff` | packages/domain/src/leave/ledger.ts:235-243 | rows keep every date from falling below zero if and only if the days on which something is taken and the days after an expiry, from the earliest of them on, are not negative |
| `LeaveLedger.AcceptedIsNeverNegativeIff` | packages/domain/src/leave/ledger.ts:213-253 | what passed the check as written, with grants that came in since, is negative on no date if and only if it is not on the days after an expiry |
| `LeaveLedger.AcceptedRowsStaySolvent` | packages/domain/src/leave/ledger.ts:213-253 | what passes on the dates of rows leaves no debt on any date, when the rows of a day that add come first |
| `LeaveLedger.AcceptedMayTurnNegative` | packages/domain/src/leave/ledger.ts:235-242 | leave on the day of a grant passes and, with a smaller id, is negative the day after the grant expires |
| `LeaveLedger.PassedOnEveryMoveStaysUp` | packages/domain/src/leave/ledger.ts:213-243 | what passes a check of those days as well is negative on no date, whatever ids its rows get and whatever grants came in |
| `LeaveLedger.DecrementsOfADayCommute` | packages/domain/src/leave/ledger.ts:62-68 | the order of two rows of a day that take changes no balance |
| `LeaveLedger.GrantsMayComeBetween` | packages/api/src/leave/repository.ts:312-318 | grants that came in since the reading lower no balance of the ledger with the batch |
| `LeaveLedger.LeaveDatesOf` | packages/api/src/request/service.ts:269-287 | the loops give the days of the period that no schedule calls free |
| `LeaveLedger.LeaveDatesAre` | packages/api/src/request/service.ts:269-287 | those days are exactly the ones of the period that no schedule makes a non-working day or a holiday, each once and ascending |
| `LeaveLedger.UndisturbedCallIs` | packages/api/src/request/service.ts:299-377 | with nothing in between an approval or an adjustment downwards commits if and only if what it takes passes the check on the ledger as it is, with all of its rows, and otherwise leaves nothing |
| `LeaveLedger.StepKeepsInv` | packages/api/src/request/service.ts:299-377 | each step of locking, reading, checking and appending keeps the reading recent and the requests in step with the ledger |
| `LeaveLedger.StepStaysUp` | packages/api/src/request/service.ts:299-377 | no step takes a balance below zero, with the check as written unless it is a commit that is negative after an expiry |
| `LeaveLedger.NoBalanceTurnsNegative` | packages/api/src/leave/service.ts:193-236 | with a check of every move no interleaving leaves a balance negative on any date |
| `LeaveLedger.RunStaysUpIff` | packages/api/src/leave/service.ts:193-236 | with the check as written no balance of a run is negative on any date if and only if no commit of it is negative after an expiry |
| `LeaveLedger.RunInOrderStaysUp` | packages/api/src/leave/service.ts:193-236 | with the check as written no balance is negative on any date when at each commit the rows of a day that add come first |
| `LeaveLedger.ApprovedLeaveIsInTheLedger` | packages/api/src/request/service.ts:299-377 | over any run a leave request has exactly the eligible days of its period in the ledger, each once and in order, if it is approved, and none otherwise |
| `Migrator.Connection.GetMigrationStatus` | packages/db/src/migrator.ts:79-103 | pending and changed files, in the order of the directory |
| `Migrator.Connection.ApplyPending` | packages/db/src/migrator.ts:141-170 | nothing when a file differs; else the pending files in order up to the one that fails |
| `Migrator.ApplyingTheFirst` | packages/db/src/migrator.ts:153-167 | applying the first pending file leaves the rest pending |
| `Migrator.StepKeepsInv` | packages/db/src/migrator.ts:123-170 | every step of every process keeps the table the history of the commits and one holder of the lock |
| `Migrator.EachVersionIsCommittedOnce` | packages/db/src/migrator.ts:123-170 | over any run a version's SQL is committed at most once, exactly when the table says so, in version order within a process |
| `Migrator.OutcomeOfARun` | packages/db/src/migrator.ts:121-170 | however a process ends that was applying, by returning, by a failing file or by losing its connection, with or without the commit under way, exactly the files it left undone are unapplied, from some file on, none on return |
| `Migrator.WaitingCanFinish` | packages/db/src/migrator.ts:121-170 | from every reachable state a process that waits for a free lock can run to its end: refusing when a file differs, else with every file applied and the lock free |
| `Migrator.CommittedIsAPrefix` | packages/db/src/migrator.ts:123-170 | processes that share a directory leave exactly a beginning of it committed |

## Left out

- HTTP routes, schemas, the web UI, permissions other than those named, visibility queries, notifications, audit texts, exports, retention and the employee import: plumbing around the models.
- Signatures, hashes and tokens: a signature is a given answer, a fingerprint identifies its input, claim tokens and ids are new.
- Enrolment and revocation of devices, card registration, and session observations, which share the device's sequence: their steps are not in the runs.
- The agent's one-shot commands: `runPunch` sends without the spool, so the protocol assumes one producer, the station.
- `calculateWorkDay`, `summarizeMonth`, schedules, work categories, rules and time zones: constants or abstract functions of `Attendance.Settings`; changing a request type's category is not a step.
- Receipts.DeviceStore.Record: whether the day accepts the punch and on which date is an input; `WorkDay` and `Attendance.Store.RecordPunch` model that decision.
- Attendance.Store.RecordPunch: the business date is given and the request id is new; `WorkDay` models the one, `Receipts` the other.
- Attendance.Store.MoveRequest: permission, visibility, the caller's own request and the comment a return needs are not asked.
- Attendance.StepKeepsDates: effective punches are resolved in insertion order; the table lists rows of one instant in the order of their ids.
- PunchProtocol.RunIsSafe: request ids are new for every punch, and no other client uses ids with the prefixes of device and card events.
- WorkDay.PassedOverIff: a new punch sorts behind stored ones of its own instant; the table lists those in the order of their ids.
- Outbox.TimelyWorkersNeverCollide: a worker that stops is taken to stop sending, and the database clock does not go back.
- Approval.Desk.Deciding: one transaction is one step, so two simultaneous decisions that only the unique index separates are not interleaved.
- LeaveLedger.NoBalanceTurnsNegative: rows of kind `reverse` and `expire` are not steps (the former neither locks nor checks, no code writes the latter); the check of every move is not the one that is written, which `LeaveLedger.RunStaysUpIff` is about.
- LeaveLedger.ValidateConsumptions: `localeCompare` is an order of numbers with proposed rows first; the check that amounts are multiples of the unit is not asked in the runs, which so include more commits.
- Calendar.DateOfNumber: `addDaysToBusinessDate` goes through the clock of the platform; here days are numbers.
- LeaveGrants.HistoryKeepsInv: one workspace and leave type with a fixed due day; the CSV format of imports is not modelled.
- LeaveGrants.Scheduler.Run: one leave type, where the source walks through those of a workspace, each on its own.
- Migrator.EachVersionIsCommittedOnce: reading file names is not modelled; a directory is its files in version order.
- File permissions, JSON syntax, logging, back-off times and the stop signal of the agent.
