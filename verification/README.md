# Zira dashboard: verified models of its stateful cores

This Dafny project models the parts of the dashboard that keep durable or shared state correct
while responses get lost, processes stop and several workers act at once, and proves what they are
built to guarantee.

- **Absence to PTO** (`AbsencePtoStore`, `AbsencePtoWorld`, `AbsencePtoSession`,
  `AbsencePtoConversion`, `AbsencePtoReview`). One request row, the Odoo leaves and review task it
  touches, and any number of lease owners. `AbsencePtoWorld` is the state machine of atomic effects:
  what the database and Odoo allow, and what the code has verified before it acts. `Session` gives
  one owner's view: between any two of its own effects others may act or edit the local records, a
  remote call may apply with its answer lost, and the lease may be gone. The conversion and review
  methods run against it, and verifying them shows that every effect they issue keeps the promise all
  owners rely on, so the lemmas over runs hold for the code.
- **Attendance mirror and recalculation** (`Attendance`, `AttendanceMirror`, `AttendanceDays`,
  `AttendanceRecalc`, `AttendanceAgreement`). Tombstoned last-writer-wins rows, the days each commit enqueues, the leased
  queue, and the interleaving of both: stored production agrees with the mirror.
- **Reading Odoo** (`OdooDomain`, `OdooAttendance`, `AttendanceSync`). The prefix-notation query
  builder against an evaluator, keyset paging over a table that changes between calls, and whole
  synchronisation runs that join paging and mirror.
- **Department repair** (`DepartmentRepair`). The one-slot job with a successor.
- **Segments** (`AssignmentWindows`), **cache** (`TtlCache`), **error text** (`SyncErrors`).

Python objects and tables that are changed in place are classes with methods proved against a
specification function; lemmas state what holds of those functions. Times are integers
(microseconds in the mirror, seconds for request leases); a plant day is an abstract function of
instants that never goes back and rises by at most one per tick.

Assumptions:

- Each store or backend function is one atomic transaction. A claimed row is never skipped because
  another transaction locks it (`SKIP LOCKED`).
- Each Odoo mutation takes effect before the lease that fenced it expires, or never. Owners are fresh
  UUIDs, nobody else edits these Odoo records, no PTO is active at the start, and one open request
  exists per employee and day. The attendance row of the day and the local leave mirror may be edited
  by anybody at any time.
- A request is on course if its absence row links the original, the original is refused or waits to be,
  and at most one PTO is active, the linked one. A session is calm if nobody else acts, every call applies
  with a lawful answer, no read fails, and the pay period and PTO type are in order; it is funded if the
  balance always covers the day. Progress is stated for calm sessions, safety for all.
- Reads of leaves and review tasks show the records as they are at that moment, or fail. The bounds
  on leave mutations do not need this: a session that is not `honest` may be told anything.
- While change pages are read, ids are unique, positive and bounded by some number, which only
  termination needs. Rows may be stamped with any write date. Id paging needs no bound.
- Values written to `started_at` are pairwise distinct. The commits of `AttendanceAgreement` are polls,
  sweeps and baseline checks, and its productions are those of completed claims; `precompute_day`
  writes production without the queue fence, and attendance corrections and verified repair rows
  write the mirror too, and they are not among its events.

Where code and documentation differ, the code is followed: `local_days_touched` documents the days
of an interval, but for an open row `_row_days` closes it at the commit, so days not yet begun are
not sent although `rows_overlapping` shows the row on them. A commit reaches a row's part of a day when
the row is closed, or the day has begun by then and the check-in is not the very commit instant.
`AttendanceDays.CommitMissesExactly` says exactly which changed days a commit leaves unsent,
`AttendanceAgreement.ProductionAgrees` that agreement is kept exactly by the runs that miss no settled
day, and `AttendanceDays.FutureDayMissed` and `AttendanceAgreement.MissedDayDisagrees` show a miss.

Checking: `dafny verify dfyconfig.toml`.

## Model

| member | source | states |
|---|---|---|
| AbsencePtoStore.RequestStore.constructor | src/zira_dashboard/absence_pto_store.py:280-324 | a new request is pending, not started, unclaimed, undelivered |
| AbsencePtoStore.RequestStore.ClaimRequest | src/zira_dashboard/absence_pto_store.py:509-549 | answers None exactly if the lease belongs to another owner and runs past now; otherwise the lease is the caller's for 120 seconds, and nothing else changes |
| AbsencePtoStore.RequestStore.RenewClaim | src/zira_dashboard/absence_pto_store.py:552-570 | stores exactly for the owner of an unexpired lease, which then runs 120 seconds from now, and nothing else changes |
| AbsencePtoStore.RequestStore.ReleaseClaim | src/zira_dashboard/absence_pto_store.py:659-674 | drops the lease exactly for the owner of an unexpired one, and nothing else changes |
| AbsencePtoStore.RequestStore.TransitionRow | src/zira_dashboard/absence_pto_store.py:601-656 | compare-and-set on lease, state and step; an unset link leaves the column alone; otherwise nothing changes and the caller sees a stale transition |
| AbsencePtoStore.RequestStore.TransitionToPending | src/zira_dashboard/absence_pto_store.py:734-759 | from converting only, clears step and link together |
| AbsencePtoStore.RequestStore.NeedsReviewRow | src/zira_dashboard/absence_pto_store.py:705-731 | from the three live states only |
| AbsencePtoStore.RequestStore.SaveTaskDelivery | src/zira_dashboard/absence_pto_store.py:762-794 | stores the review-task id of a leased request in review |
| AbsencePtoStore.RequestStore.SaveResolutionDelivery | src/zira_dashboard/absence_pto_store.py:797-833 | compare-and-set on the delivery step of a terminal row |
| AbsencePtoStore.RequestStore.AdoptExternalPto | src/zira_dashboard/absence_pto_store.py:836-862 | links an external PTO only while in review and leased |
| AbsencePtoStore.RequestStore.FinalizeApprovedRow | src/zira_dashboard/absence_pto_store.py:865-1035 | approves only the expected ids, and opens delivery exactly if a review task exists; answers lock lost exactly when the row is not selected, and stale exactly when a selected row has other ids |
| AbsencePtoStore.RequestStore.FinalizeManualRow | src/zira_dashboard/absence_pto_store.py:1038-1102 | stores exactly in review under the caller's unexpired lease; the row is resolved manually, and delivery closed exactly if there is no review task |
| AbsencePtoStore.RequestStore.FinalizeDeniedRow | src/zira_dashboard/absence_pto_store.py:1105-1199 | stores exactly for a pending row under the caller's unexpired lease; only the state changes |
| AbsencePtoStore.LeaseNeedsClaim | src/zira_dashboard/absence_pto_store.py:509-570 | in any log of attempts with any clocks, a lease becomes an owner's only through that owner's claim |
| AbsencePtoStore.ClaimedBefore | src/zira_dashboard/absence_pto_store.py:509-862 | every successful operation follows a claim by the same owner |
| AbsencePtoStore.FencedAfterTakeover | src/zira_dashboard/absence_pto_store.py:509-862 | once another owner has claimed, no later operation of the earlier owner succeeds |
| AbsencePtoStore.OwnerBlocksAreContiguous | src/zira_dashboard/absence_pto_store.py:509-1199 | successful writes to a row form contiguous per-owner blocks in every interleaving |
| AbsencePtoStore.LeaseExcludes | src/zira_dashboard/absence_pto_store.py:509-570 | over any log with growing clocks: for 120 seconds after a claim or renewal that its owner does not release, no operation of any other owner succeeds, a claim included |
| AbsencePtoStore.LeaseLasts | src/zira_dashboard/absence_pto_store.py:509-570 | during that time the row stays owned, at least until 120 seconds after |
| AbsencePtoStore.ExpiredLeaseIsFree | src/zira_dashboard/absence_pto_store.py:523-533 | from 120 seconds after the last claim or renewal on, the next claim by anybody succeeds |
| AbsencePtoWorld.StepKeepsInv | src/zira_dashboard/absence_pto_conversion.py:557-823 | every effect of every owner keeps: at most one active PTO, none beside the active original, link names it, row shape, one review task with at most one marked message |
| AbsencePtoWorld.RunKeepsInv | src/zira_dashboard/absence_pto_conversion.py:557-823 | the invariant in every state of every interleaved run |
| AbsencePtoWorld.NeverBookedTwice | src/zira_dashboard/absence_pto_conversion.py:655-706 | from a fresh request, never more than one leave (PTO or original absence) is active, whatever crashes, answers are lost or leases change hands |
| AbsencePtoWorld.ReachableRows | src/zira_dashboard/absence_pto_store.py:601-759 | reachable rows with step pto_created or pto_approved have a link; pending and denied rows are not started; approved rows are pto_approved |
| AbsencePtoWorld.FinalizeSettles | src/zira_dashboard/absence_pto_conversion.py:785-802 | finalizing from converting makes PTO, original, link, both mirrored leaves and row agree |
| AbsencePtoWorld.SettledStays | src/zira_dashboard/absence_pto_store.py:886-989 | nothing any owner may do afterwards undoes the booking, and only an edit of the local records makes them disagree with it |
| AbsencePtoWorld.ApprovedMeansSettled | src/zira_dashboard/absence_pto_conversion.py:785-802 | after a finalize from converting the booking stands in every later state of the run, and the local records agree until somebody else edits them |
| AbsencePtoWorld.PendingMeansRestored | src/zira_dashboard/absence_pto_conversion.py:519-534 | whenever the compensated return to pending commits, no matching PTO is active and the original is validated again |
| AbsencePtoWorld.ValidatedPtoIsFinal | src/zira_dashboard/absence_pto_conversion.py:409-445 | an approved PTO leave stays approved for the rest of the run; compensation never touches it |
| AbsencePtoWorld.DeliveredOnce | src/zira_dashboard/absence_pto_review.py:502-579 | over a whole run: at most one review task, at most one marked message, and closed with a task means posted once and archived |
| AbsencePtoWorld.ResolutionMovesForward | src/zira_dashboard/absence_pto_store.py:797-833 | delivery steps only move forward, and jump straight to closed only when the row names no review task |
| AbsencePtoWorld.ClosedIsToldExactly | src/zira_dashboard/absence_pto_review.py:502-579 | once closed, every review task in Odoo carries the one message and is archived if and only if the row names it or there is none |
| AbsencePtoWorld.LostTaskIsNeverTold | src/zira_dashboard/absence_pto_review.py:272-307 | a run in which a create whose answer and lookup were lost leaves an open review task that is never told |
| AbsencePtoSession.Session.Reachable | src/zira_dashboard/absence_pto_conversion.py:64-83 | whatever interleaving happened, the world an owner sees satisfies the invariant, if it was told the truth |
| AbsencePtoSession.Session.Claim | src/zira_dashboard/absence_pto_store.py:509-549 | a fresh owner starts from any reachable world |
| AbsencePtoSession.Session.Wait | src/zira_dashboard/absence_pto_conversion.py:232-249 | between two effects of one owner, others only let time pass, edit the local records, or take the lease for good; in a calm session nothing happens |
| AbsencePtoSession.Session.Commit | src/zira_dashboard/absence_pto_conversion.py:244-249 | a local statement finds what the lease guards as the owner last saw it, or changes nothing; in a calm session under the lease it applies exactly if the store accepts it |
| AbsencePtoSession.Session.Mutate | src/zira_dashboard/absence_pto_conversion.py:613-640 | a remote mutation may apply with the answer lost, or be dropped; raising tells nothing; in a calm session every possible call applies with a lawful answer |
| AbsencePtoSession.OthersOnlyDrift | src/zira_dashboard/absence_pto_store.py:509-549 | another owner's effect is time passing, an edit of the local records, or ends this owner's lease |
| AbsencePtoConversion.ReadOriginal | src/zira_dashboard/absence_pto_conversion.py:207-211 | a verified read shows the original as it is, or the request is unsafe |
| AbsencePtoConversion.ReadPto | src/zira_dashboard/absence_pto_conversion.py:214-229 | the one active match, which must be the linked leave; two matches are unsafe |
| AbsencePtoConversion.ReadLeave | src/zira_dashboard/absence_pto_conversion.py:188-204 | a leave of the wrong identity is never accepted |
| AbsencePtoConversion.FreshRequestIsOnCourse | src/zira_dashboard/absence_pto_store.py:280-324 | a freshly submitted request whose absence is linked and stands, or which has none, is on course |
| AbsencePtoConversion.Preflight | src/zira_dashboard/absence_pto_conversion.py:145-185 | the Odoo facts a passed preflight establishes while the lease is held |
| AbsencePtoConversion.RenewAndPreflight | src/zira_dashboard/absence_pto_conversion.py:232-241 | the same, right after renewing |
| AbsencePtoConversion.Advance | src/zira_dashboard/absence_pto_conversion.py:645-653 | a stored transition happened under the lease on the row the owner last saw |
| AbsencePtoConversion.CommitPending | src/zira_dashboard/absence_pto_conversion.py:305-316 | the compensated return to pending is issued only on a restored day |
| AbsencePtoConversion.HandToReview | src/zira_dashboard/absence_pto_conversion.py:273-291 | a live row is in review when review is reported |
| AbsencePtoConversion.StartConversion | src/zira_dashboard/absence_pto_conversion.py:570-653 | up to the refusal: at most one mutation, and a return to pending only on a restored day |
| AbsencePtoConversion.RefusedBefore | src/zira_dashboard/absence_pto_conversion.py:570-583 | whether an earlier claim has refused the original, as the row or Odoo shows |
| AbsencePtoConversion.TakeOver | src/zira_dashboard/absence_pto_conversion.py:585-600 | checked and taken over into converting; an unlinked request only if some balance answer covered the day |
| AbsencePtoConversion.BeginConversion | src/zira_dashboard/absence_pto_conversion.py:585-653 | up to the refusal; on an undisturbed course the original is out afterwards unless the balance is short, and untouched means that no mutation was issued |
| AbsencePtoConversion.RefuseOnce | src/zira_dashboard/absence_pto_conversion.py:613-640 | after the refusal call: the absence is out, or it still stands and the request is pending again |
| AbsencePtoConversion.RefuseOriginal | src/zira_dashboard/absence_pto_conversion.py:603-653 | the step is stored only when the original is out; at most one mutation |
| AbsencePtoConversion.RefuseStanding | src/zira_dashboard/absence_pto_conversion.py:605-653 | a standing original is checked again and refused: on an undisturbed course it is out afterwards, unless the balance is short |
| AbsencePtoConversion.RecheckOriginal | src/zira_dashboard/absence_pto_conversion.py:606-612 | renewed and checked again, the original stands as it was |
| AbsencePtoConversion.RefusedStaysOnCourse | src/zira_dashboard/absence_pto_conversion.py:613-653 | refusing the original leaves the request on course |
| AbsencePtoConversion.CreatedIsSole | src/zira_dashboard/absence_pto_conversion.py:676-678 | a create with no active match leaves exactly the created leave active |
| AbsencePtoConversion.CreateMissing | src/zira_dashboard/absence_pto_conversion.py:661-695 | check, renew, recheck, fence, create: the leave found is the only possible active match; nothing is created unlinked unless some balance answer covered the day |
| AbsencePtoConversion.CreateOnce | src/zira_dashboard/absence_pto_conversion.py:674-695 | a lost or doubtful create answer is resolved by adopting what exists |
| AbsencePtoConversion.CreateOrAdoptPto | src/zira_dashboard/absence_pto_conversion.py:655-705 | ends with a linked PTO, created here or by an earlier claim; at most one mutation; on an undisturbed course only a short balance stops it |
| AbsencePtoConversion.FindOrCreate | src/zira_dashboard/absence_pto_conversion.py:655-696 | the PTO that is there or a new one, and on an undisturbed course one of both unless the balance is short |
| AbsencePtoConversion.CreatedStaysOnCourse | src/zira_dashboard/absence_pto_conversion.py:676-678 | a created leave is the one active match and leaves the request on course |
| AbsencePtoConversion.CallAndVerify | src/zira_dashboard/absence_pto_conversion.py:716-728 | the readback decides, not the answer of the call |
| AbsencePtoConversion.RecheckPto | src/zira_dashboard/absence_pto_conversion.py:740-745 | renew, check again and fence: while the lease is held the linked leave is unchanged, the only possible active match, and the original is out |
| AbsencePtoConversion.ConfirmPto | src/zira_dashboard/absence_pto_conversion.py:709-737 | a draft is confirmed once and verified |
| AbsencePtoConversion.ApproveOnce | src/zira_dashboard/absence_pto_conversion.py:738-771 | one approval strictly advances the leave and the row records the last one; on an undisturbed course only a short balance stops it |
| AbsencePtoConversion.ApprovePto | src/zira_dashboard/absence_pto_conversion.py:707-783 | at most three mutations, ending approved or not; on an undisturbed course a linked draft, confirmed or half-approved PTO is approved, unless the balance is short |
| AbsencePtoConversion.ConfirmIfDraft | src/zira_dashboard/absence_pto_conversion.py:707-737 | the linked PTO as it is, or confirmed if it was a draft |
| AbsencePtoConversion.ApproveSteps | src/zira_dashboard/absence_pto_conversion.py:738-771 | the loop leaves no approval to come; on an undisturbed course it ends with the one match approved, unless the balance is short |
| AbsencePtoConversion.MovedStaysOnCourse | src/zira_dashboard/absence_pto_conversion.py:738-771 | confirming or approving the linked PTO leaves the request on course |
| AbsencePtoConversion.RecheckApproved | src/zira_dashboard/absence_pto_conversion.py:776-784 | the approved PTO is still approved right after a renewal and a full check |
| AbsencePtoConversion.Finalize | src/zira_dashboard/absence_pto_conversion.py:785-811 | reports approved only when everything is settled and the pay period was seen open, and stale only when the lease is lost or somebody changed the attendance row; on an undisturbed course it approves unless the balance is short |
| AbsencePtoConversion.RecoveryView | src/zira_dashboard/absence_pto_conversion.py:319-360 | while the lease is held, exactly the original and the active match |
| AbsencePtoConversion.StepFence | src/zira_dashboard/absence_pto_conversion.py:372-385 | stores the same step again, for the current owner only |
| AbsencePtoConversion.AdoptForRecovery | src/zira_dashboard/absence_pto_conversion.py:388-406 | recovery links the one unlinked PTO or refuses |
| AbsencePtoConversion.CloseIncompletePto | src/zira_dashboard/absence_pto_conversion.py:409-445 | refuses at most one unapproved PTO, verified before and after; success under the lease means that no PTO is active |
| AbsencePtoConversion.RefuseIncomplete | src/zira_dashboard/absence_pto_conversion.py:424-445 | on an undisturbed course the refusal of an unapproved PTO succeeds and leaves nothing active |
| AbsencePtoConversion.ClosedIsRecoverable | src/zira_dashboard/absence_pto_conversion.py:424-445 | with that PTO refused, compensation can go on |
| AbsencePtoConversion.FenceIncomplete | src/zira_dashboard/absence_pto_conversion.py:424-431 | under the lease the PTO about to be refused is the sole active match and still unapproved |
| AbsencePtoConversion.MoveOriginal | src/zira_dashboard/absence_pto_conversion.py:463-516 | one compensating call on the original with nothing else active |
| AbsencePtoConversion.ApproveAgain | src/zira_dashboard/absence_pto_conversion.py:484-511 | at most one approval per step still missing, each strictly advancing the original |
| AbsencePtoConversion.RestoreOriginal | src/zira_dashboard/absence_pto_conversion.py:448-516 | at most three mutations, after which the original is validated and no PTO is active; undisturbed, it gets there |
| AbsencePtoConversion.ResetIfOut | src/zira_dashboard/absence_pto_conversion.py:463-483 | a refused original is reset so that it can be approved again |
| AbsencePtoConversion.MovedOriginalIsRecoverable | src/zira_dashboard/absence_pto_conversion.py:463-516 | moving the original leaves compensation able to go on |
| AbsencePtoConversion.Compensate | src/zira_dashboard/absence_pto_conversion.py:519-534 | at most four mutations; pending is reported only when the day is restored, otherwise review or busy; undisturbed, it ends pending exactly if the PTO there is can still be refused, and in review otherwise |
| AbsencePtoConversion.AlreadyApproved | src/zira_dashboard/absence_pto_conversion.py:537-554 | an approved row is reported approved only if the link named the PTO during the call and Odoo still approves it |
| AbsencePtoConversion.Convert | src/zira_dashboard/absence_pto_conversion.py:565-811 | at most five forward mutations; approval means settled; on an undisturbed course it approves, or stops because some balance answer was short |
| AbsencePtoConversion.PendingForLowBalance | src/zira_dashboard/absence_pto_conversion.py:252-270 | returns a not-started conversion to pending |
| AbsencePtoConversion.ResumeClaim | src/zira_dashboard/absence_pto_conversion.py:557-823 | one claim terminates with at most five forward and four compensating leave mutations, even if its reads of leaves are untrue. If nobody interferes, a request on course is approved when the balance covers the day, and if it is not approved then some balance answer was short: it is pending, or in review with a PTO that can no longer be refused. Told the truth, reported approved means settled, with the pay period seen open and, for an unlinked request, the day covered; reported pending after a mutation means the day is restored; reported pending or in review means the row is; a claim that keeps its lease leaves the conversion open, as busy, only when somebody changed the attendance row of a finished one |
| AbsencePtoConversion.Approve | src/zira_dashboard/absence_pto_conversion.py:64-83 | the same from any reachable world under a fresh owner, with the meaning of each status at the world of the run in which it was decided; a claimed request on course that is not approved had a turn in which somebody interfered or the balance was short; an undisturbed call leaves no lease behind |
| AbsencePtoConversion.WorkAndRelease | src/zira_dashboard/absence_pto_conversion.py:73-83 | the claimed request is worked on and the lease released, approved if nobody interferes and the balance covers the day |
| AbsencePtoReview.ReadTask | src/zira_dashboard/absence_pto_review.py:212-216 | the active review task or none; two of them, or a failed read, are an error |
| AbsencePtoReview.TryCreateTask | src/zira_dashboard/absence_pto_review.py:272-307 | one create attempt and the lookup after a lost answer |
| AbsencePtoReview.CreateTaskOnce | src/zira_dashboard/absence_pto_review.py:272-307 | a second attempt only when none exists |
| AbsencePtoReview.LocateTask | src/zira_dashboard/absence_pto_review.py:310-377 | finds, adopts or creates the one review task |
| AbsencePtoReview.SyncTask | src/zira_dashboard/absence_pto_review.py:310-377 | success means the row names the one review task, stored and refreshed under the lease; otherwise it is left for a retry; if nobody interferes and attempts are left, it succeeds |
| AbsencePtoReview.Checkpoint | src/zira_dashboard/absence_pto_review.py:482-499 | a stored delivery step is the current owner's; closed means delivered |
| AbsencePtoReview.PostOnce | src/zira_dashboard/absence_pto_review.py:533-548 | the marked message is posted only when absent and found afterwards |
| AbsencePtoReview.ArchiveOnce | src/zira_dashboard/absence_pto_review.py:555-561 | the review task is archived when this succeeds |
| AbsencePtoReview.DeliverToTask | src/zira_dashboard/absence_pto_review.py:519-563 | success means posted exactly once and archived |
| AbsencePtoReview.DeliverTerminal | src/zira_dashboard/absence_pto_review.py:502-579 | closed is reported only after delivery, and is reported for every terminal request whose delivery was not given up, if nobody interferes |
| AbsencePtoReview.MatchingValidated | src/zira_dashboard/absence_pto_review.py:406-427 | exactly one active match and it is approved |
| AbsencePtoReview.ResolveExternal | src/zira_dashboard/absence_pto_review.py:582-618 | approval of an external PTO leaves it the only active match and the link naming it; if nobody interferes it approves exactly if the one active match is approved |
| AbsencePtoReview.ReconcileClaimed | src/zira_dashboard/absence_pto_review.py:704-742 | what each answer means for each state the row was in: resumed is delivered, approved, settled or pending again, escalated is in review, failed on a pending or converting row only when the lease was lost or the attendance row changed; at most nine mutations, none unless converting; if nobody interferes, a terminal row is delivered, a pending one escalated, and one on course whose balance covers the day resumed |
| AbsencePtoReview.ReconcileConverting | src/zira_dashboard/absence_pto_review.py:704-742 | a converting row is resumed, or its review task opened; one on course whose balance covers the day is resumed if nobody interferes |
| AbsencePtoReview.OnlyTask | src/zira_dashboard/absence_pto_review.py:212-216 | a known review task is the only one |
| Attendance.WinnerIsLastMaximal | src/zira_dashboard/attendance_mirror.py:228-238 | the version kept for an id is the last arrival among those of maximal write date |
| Attendance.WinnerOfConcat | src/zira_dashboard/attendance_mirror.py:228-238 | winners compose over concatenation |
| Attendance.NewestFindsWinner | src/zira_dashboard/attendance_mirror.py:228-238 | the dict of newest rows holds each id's winner |
| Attendance.NewestIsUnique | src/zira_dashboard/attendance_mirror.py:228-238 | one row per id, all from the input |
| Attendance.CollectNewest | src/zira_dashboard/_odoo_attendance.py:161-178 | the loop shared by normalising, merging and deduplicating builds that dict |
| Attendance.SortSorts | src/zira_dashboard/attendance_mirror.py:228-238 | ordering keeps the rows and makes the order strict |
| OdooDomain.PrefixIsComplete | src/zira_dashboard/_odoo_attendance.py:149-158 | prefix notation of any expression tree is one complete expression with its truth value |
| OdooDomain.AndDomainMeaning | src/zira_dashboard/_odoo_attendance.py:149-158 | the combined domain means the conjunction of its arguments, on every record |
| OdooDomain.BuildAndDomain | src/zira_dashboard/_odoo_attendance.py:149-158 | the list-building loop builds that domain |
| OdooDomain.AndsJoin | src/zira_dashboard/_odoo_attendance.py:149-158 | n explicit ANDs join exactly the next n+1 complete expressions |
| OdooDomain.BoundaryMeansAfter | src/zira_dashboard/_odoo_attendance.py:127-135 | exactly the rows lexicographically after (write date, id) |
| OdooDomain.UpperBoundaryMeansAtMost | src/zira_dashboard/_odoo_attendance.py:138-146 | exactly the rows at or before (write date, id) |
| OdooDomain.EmployeeOverlapMeaning | src/zira_dashboard/_odoo_attendance.py:432-460 | exactly the employee's rows overlapping the window, open ones included |
| OdooAttendance.PageDomain | src/zira_dashboard/_odoo_attendance.py:220-236 | a page's domain selects exactly the base rows between cursor and watermark |
| OdooAttendance.PageReads | src/zira_dashboard/_odoo_attendance.py:220-236 | a page holds the first such rows; anything missing comes after a full page |
| OdooAttendance.WatermarkReads | src/zira_dashboard/_odoo_attendance.py:194-217 | the watermark is the greatest key after the cursor |
| OdooAttendance.FetchChangePages | src/zira_dashboard/_odoo_attendance.py:181-247 | terminates; every row unchanged while the pages are read is returned exactly once, however late it was stamped or committed, and nothing that did not match |
| OdooAttendance.StableRowSurvives | src/zira_dashboard/_odoo_attendance.py:161-178 | deduplication keeps an unchanged row |
| OdooAttendance.FetchAttendanceChanges | src/zira_dashboard/_odoo_attendance.py:300-326 | returns every unchanged row after the caller's cursor and every unchanged row stamped within the overlap before it, and without overlap nothing else |
| OdooAttendance.FetchIdPages | src/zira_dashboard/_odoo_attendance.py:250-297 | under arbitrary edits every id matching at all calls is returned, once, in order; every row returned matched at some call |
| OdooAttendance.IdPageStep | src/zira_dashboard/_odoo_attendance.py:276-296 | one page brings the reading up to its last id, or to the watermark |
| OdooAttendance.FetchAllIds | src/zira_dashboard/_odoo_attendance.py:366-410 | the complete id sweep: ids present throughout are returned, ids absent throughout are not, strictly ascending |
| AttendanceRecalc.RetryDelayDoublesToTheCap | src/zira_dashboard/attendance_recalc.py:55-61 | the delay doubles from 15 seconds and is 900 exactly from the seventh attempt |
| AttendanceRecalc.RecalcQueue.EnqueueDays | src/zira_dashboard/attendance_mirror.py:276-305 | requested days wait unclaimed; a pending one keeps its earliest request and attempts, a completed one starts afresh |
| AttendanceRecalc.RecalcQueue.ClaimNext | src/zira_dashboard/attendance_recalc.py:64-102 | None exactly if every uncompleted day has started or is to be retried later than now; otherwise an uncompleted day whose start is unset or not after now, none of those requested earlier, and its next attempt is leased for 15 minutes |
| AttendanceRecalc.RecalcQueue.CompleteClaim | src/zira_dashboard/attendance_recalc.py:150-206 | production and completion are stored together exactly when the claim still owns the row, and the caches are left to be refreshed |
| AttendanceRecalc.RecalcQueue.RecordFailure | src/zira_dashboard/attendance_recalc.py:238-261 | the retry time, after the failure and at most 15 minutes later, is stored exactly when the claim still owns the row; from then on the day can be claimed again |
| AttendanceRecalc.RecalcQueue.ClaimPendingCache | src/zira_dashboard/attendance_recalc.py:105-147 | None exactly if no completed day without fresh caches is due; otherwise the one completed first |
| AttendanceRecalc.RecalcQueue.MarkCacheReady | src/zira_dashboard/attendance_recalc.py:209-235 | readiness is stored exactly for the owning refresh of that completion, and the day is not refreshed again |
| AttendanceRecalc.RequestWaits | src/zira_dashboard/attendance_mirror.py:276-305 | every requested day can be claimed at once, a pending one with the earlier of both requests and its attempts, a completed or new one from the beginning |
| AttendanceRecalc.DueMeansWaits | src/zira_dashboard/attendance_recalc.py:64-147 | the rows the two claim queries select and order, on the columns |
| AttendanceMirror.DaysTouchedExactly | src/zira_dashboard/attendance_mirror.py:241-258 | exactly the days met by the half-open interval |
| AttendanceMirror.LocalDaysTouched | src/zira_dashboard/attendance_mirror.py:241-258 | the loop computes that set |
| AttendanceMirror.OverlapMeansMeets | src/zira_dashboard/attendance_mirror.py:566-580 | the SQL selection for a day's window keeps exactly the rows covering an instant of that day |
| AttendanceMirror.RowDaysMissed | src/zira_dashboard/attendance_mirror.py:261-262 | the days a row meets that its commit leaves out, exactly: an open row's days not yet begun, or all for a check-in at the commit instant |
| AttendanceMirror.MergeTwice | src/zira_dashboard/attendance_mirror.py:391-422 | two versions in a row act like the winner of the two |
| AttendanceMirror.UpsertIsOneMerge | src/zira_dashboard/attendance_mirror.py:355-431 | a whole batch acts on each id like its winning version alone |
| AttendanceMirror.BatchesConcatenate | src/zira_dashboard/attendance_mirror.py:228-238 | normalising, splitting and concatenating batches change nothing |
| AttendanceMirror.ReplicaKeepsLastMaximal | src/zira_dashboard/attendance_mirror.py:355-431 | without tombstones, after any batches the stored row is the last arrival of maximal write date |
| AttendanceMirror.UpsertRevives | src/zira_dashboard/attendance_mirror.py:269-273 | a tombstone is lifted exactly by a strictly later observation of a version not older; write date, first and last seen never go back |
| AttendanceDays.AffectsExactly | src/zira_dashboard/attendance_mirror.py:355-431 | a normalised batch sends exactly the days its rows send one by one |
| AttendanceDays.CommitChangesExactly | src/zira_dashboard/attendance_mirror.py:355-431 | a poll or sweep changes what a day shows exactly if a carried row that takes effect does, or a dropped row met the day |
| AttendanceDays.CommitReportsExactly | src/zira_dashboard/attendance_mirror.py:798-834 | a poll or sweep sends a day exactly if a carried row that takes effect, or a dropped row, covers the part of it the commit reaches |
| AttendanceDays.CommitMissesExactly | src/zira_dashboard/attendance_mirror.py:761-851 | so it leaves a changed day unsent if and only if it changes the day and reports nothing on it |
| AttendanceDays.CommitSends | src/zira_dashboard/attendance_mirror.py:276-305 | the queue after a commit is the queue before with exactly the sent days requested |
| AttendanceDays.DroppedExactly | src/zira_dashboard/attendance_mirror.py:798-818 | a sweep drops exactly the active rows it did not fetch, as they were stored |
| AttendanceDays.ReachedIsNotMissed | src/zira_dashboard/attendance_mirror.py:261-262 | a commit that reaches a day does not miss it |
| AttendanceMirror.SweepLeavesActive | src/zira_dashboard/attendance_mirror.py:761-851 | after a sweep the active ids are exactly (active before plus revived) intersected with the fetched ones; no row is added or lost |
| AttendanceMirror.NothingGoesBack | src/zira_dashboard/attendance_mirror.py:446-506 | no commit moves a stored write date, sighting, the cursor, generation or baseline back |
| AttendanceMirror.NothingEverGoesBack | src/zira_dashboard/attendance_mirror.py:446-506 | the same over any sequence of commits |
| AttendanceMirror.TombstonesLiftOnlyLater | src/zira_dashboard/attendance_mirror.py:269-273 | over every kind of commit, a tombstone stays as it is or is lifted by a carried row observed strictly later |
| AttendanceDays.NoChangedDayMissed | src/zira_dashboard/attendance_mirror.py:798-834 | after the baseline, a commit that changes what a day shows leaves it waiting in the queue, if it reaches the day of the rows it carries, their stored versions and the rows it drops; whatever it does not send keeps its job |
| AttendanceDays.FutureDayMissed | src/zira_dashboard/attendance_mirror.py:261-262 | a commit that misses a day: an open row already shows in a future day that is not sent |
| AttendanceMirror.Mirror.constructor | src/zira_dashboard/attendance_mirror.py:319-348 | an empty mirror with no baseline |
| AttendanceMirror.Mirror.UpsertRows | src/zira_dashboard/attendance_mirror.py:355-431 | the in-place loop computes the batch result, the days sent and the queue |
| AttendanceMirror.Mirror.StoreIncrementalCycle | src/zira_dashboard/attendance_mirror.py:462-506 | rows, queue, cursor and completion change together, or nothing when an input is refused; the cursor is the old or the given one, and no other progress changes |
| AttendanceMirror.LaterCursorIsLatest | src/zira_dashboard/attendance_mirror.py:446-459 | the later of the stored and the given cursor, and one of them |
| AttendanceMirror.Mirror.StoreFullSweep | src/zira_dashboard/attendance_mirror.py:761-851 | recovery, sightings, tombstones, queue and generation change together, or nothing when refused; returns the tombstoned ids, all unfetched; every row left active was seen in this generation, which is the next one |
| AttendanceMirror.Mirror.CompleteBaselineIfReady | src/zira_dashboard/attendance_mirror.py:919-940 | the baseline is set once, after both first completions |
| AttendanceSync.TakeChunk | src/zira_dashboard/attendance_sync.py:317-334 | chunks are non-empty and of bounded size |
| AttendanceSync.ReadRowsByIds | src/zira_dashboard/attendance_sync.py:317-334 | rows found are as some call found them; with all required, exactly the requested ids; an error only for an unacceptable row, or a required id that was missing |
| AttendanceSync.RunFullSweep | src/zira_dashboard/attendance_sync.py:337-370 | with rows created, edited and deleted between the calls: an active row present throughout is kept, one absent throughout is tombstoned, and the active ids are exactly characterised; an empty fetch commits only if a second reading of every active id found it absent too; refused only when an unacceptable row was read or a mirrored id came or went meanwhile |
| AttendanceSync.ReadCycle | src/zira_dashboard/attendance_sync.py:236-258 | an unchanged row written since the overlap before the cursor, or open, wins among what was read |
| AttendanceSync.RunIncremental | src/zira_dashboard/attendance_sync.py:236-268 | every such row, also one committed late within the overlap, is in the mirror afterwards unless a newer version or deletion is known; the new cursor has passed every one of them and is the old one or the key of a row that was read; refused only for an unacceptable row |
| AttendanceSync.CursorFor | src/zira_dashboard/attendance_sync.py:226-233 | the greatest key among the changes |
| AttendanceSync.WinnerIsStored | src/zira_dashboard/attendance_sync.py:216-223 | the winning version takes effect in the commit |
| AttendanceAgreement.ProductionAgrees | src/zira_dashboard/attendance_recalc.py:150-206 | from the baseline on, over any interleaving of commits, requests, claims, completions, failures and lease expiries: each queued day is unfinished or its stored production was computed from its current view, in every state and with no worker able to store another, if and only if no commit misses a day settled at that point |
| AttendanceAgreement.CommitKeepsCurrentExactly | src/zira_dashboard/attendance_mirror.py:355-431 | a commit keeps production current exactly when it misses no day that is finished or about to be |
| AttendanceAgreement.StepKeepsCurrentExactly | src/zira_dashboard/attendance_recalc.py:64-261 | every other event keeps it: the fence rejects every outdated computation |
| AttendanceAgreement.RunIsCurrentExactly | src/zira_dashboard/attendance_recalc.py:347-404 | the same over whole runs |
| AttendanceAgreement.ReachingCommitMissesNone | src/zira_dashboard/attendance_mirror.py:261-262 | a commit that reaches the settled days misses none |
| AttendanceAgreement.UnqueuedDaysAreExplained | src/zira_dashboard/attendance_mirror.py:355-431 | over every run, whatever is missed: a day that is not queued shows of each row what it showed at the baseline, except for open rows committed before the day began or at their check-in instant |
| AttendanceAgreement.BegunDaysAreUnchanged | src/zira_dashboard/attendance_mirror.py:355-431 | so a day begun by every commit shows exactly what it showed at the baseline unless it is queued |
| AttendanceAgreement.WorkKeepsCurrent | src/zira_dashboard/attendance_recalc.py:150-206 | reading the view and completing keep production current |
| AttendanceAgreement.ClaimKeepsCurrent | src/zira_dashboard/attendance_recalc.py:64-102 | claiming and retrying keep production current |
| AttendanceAgreement.MissedDayDisagrees | src/zira_dashboard/attendance_mirror.py:261-262 | a commit that misses a finished day, so that its production disagrees |
| AttendanceAgreement.DaysComeBack | src/zira_dashboard/attendance_recalc.py:64-147 | over every run, whoever stopped in the middle of whatever: 15 minutes after the last step of a worker every unfinished day can be claimed, and every finished day without fresh caches refreshed |
| AttendanceAgreement.RunReturnsBy | src/zira_dashboard/attendance_recalc.py:64-261 | over every run no lease or retry reaches further than 15 minutes past the last step of a worker |
| AttendanceAgreement.StepReturnsBy | src/zira_dashboard/attendance_recalc.py:64-261 | each event keeps that bound |
| DepartmentRepair.StepKeepsSlot | src/zira_dashboard/attendance_department_repair.py:246-973 | each step: a successor only behind a running repair and strictly newer, at most three attempts, pending stays claimable, projection never back; ending a claim promotes the successor with a fresh budget unless a verified newer row of another work center displaced it |
| DepartmentRepair.RunKeepsSlot | src/zira_dashboard/attendance_department_repair.py:246-973 | the same over any run of steps by any callers |
| DepartmentRepair.NeverStuck | src/zira_dashboard/attendance_department_repair.py:520-590 | a pending or lease-expired repair is claimable after the expiry step, or has just failed with its budget spent and nothing waiting |
| DepartmentRepair.AcceptedIsNext | src/zira_dashboard/attendance_department_repair.py:246-404 | an accepted candidate is next in line, as the active pending repair or the successor; a refused one changes at most the projection time |
| DepartmentRepair.ReconcileIsSafe | src/zira_dashboard/attendance_department_repair.py:418-518 | reconciling ends no running repair and completes one only when a later projection saw the very row the mirror holds, already correct |
| DepartmentRepair.EndsAlone | src/zira_dashboard/attendance_department_repair.py:694-973 | each way a holder ends its claim with nothing waiting: finished is complete without error with the verified write date, discarded is complete, a failed attempt is failed exactly at the third and pending before, a new department or version is pending with a fresh budget, and renewing goes on exactly while the mirror shows the expected row |
| DepartmentRepair.EndsForSuccessor | src/zira_dashboard/attendance_department_repair.py:653-692 | with a successor waiting every such step ends in its favour with a fresh budget, unless a verified newer row of another work center displaces it |
| DepartmentRepair.TakenAndExpired | src/zira_dashboard/attendance_department_repair.py:520-590 | exactly when a repair can be claimed, what claiming leaves, and what the expiry step does to a spent one |
| DepartmentRepair.AcceptedExactly | src/zira_dashboard/attendance_department_repair.py:246-404 | exactly which candidates are taken and where they are put: projected later than everything queued, of a version not outdated, and not the work already queued |
| DepartmentRepair.ReconciledExactly | src/zira_dashboard/attendance_department_repair.py:418-518 | exactly what reconciling does with a covered slot: refuse an inconsistent projection, queue, settle, or leave it alone |
| DepartmentRepair.RepairQueue.EnqueueOne | src/zira_dashboard/attendance_department_repair.py:246-404 | all branches of accepting, adopting the mirror's version, refreshing or refusing a candidate |
| DepartmentRepair.RepairQueue.EnqueueCandidates | src/zira_dashboard/attendance_department_repair.py:406-416 | the batch in order, counting acceptances |
| DepartmentRepair.RepairQueue.Reconcile | src/zira_dashboard/attendance_department_repair.py:418-518 | each covered slot gets its outcome and every other is untouched, or an inconsistent projection changes nothing |
| DepartmentRepair.RepairQueue.ClaimNext | src/zira_dashboard/attendance_department_repair.py:520-590 | expires every exhausted lease, then takes the claimable repair updated first and owns it; None exactly if no repair is claimable, on its columns |
| DepartmentRepair.ClaimsMeans | src/zira_dashboard/attendance_department_repair.py:555-590 | the rows the claim query selects and its order, on the columns |
| DepartmentRepair.RepairQueue.Promote | src/zira_dashboard/attendance_department_repair.py:653-692 | the successor takes the slot, with an observed newer version of its work center |
| DepartmentRepair.RepairQueue.RenewClaim | src/zira_dashboard/attendance_department_repair.py:694-736 | goes on exactly without a successor and while the mirror shows the expected version |
| DepartmentRepair.RepairQueue.DiscardClaim | src/zira_dashboard/attendance_department_repair.py:842-870 | ends exactly the owned claim, complete without error or in favour of the successor |
| DepartmentRepair.RepairQueue.RefreshTarget | src/zira_dashboard/attendance_department_repair.py:815-840 | a new target restarts the budget, for the owned claim only |
| DepartmentRepair.RepairQueue.Verify | src/zira_dashboard/attendance_department_repair.py:742-758 | a verified row is stored in the mirror exactly for an owned claim and a row not older than the mirror's |
| DepartmentRepair.RepairQueue.RefreshExpected | src/zira_dashboard/attendance_department_repair.py:760-813 | promotes or displaces the successor and restarts the budget |
| DepartmentRepair.RepairQueue.FinishVerified | src/zira_dashboard/attendance_department_repair.py:872-917 | completes or promotes, storing the verified row in the same transaction |
| DepartmentRepair.RepairQueue.RetryOrFail | src/zira_dashboard/attendance_department_repair.py:919-973 | pending while attempts remain, failed after the third, unless the successor takes over |
| AssignmentWindows.SortIsStable | src/zira_dashboard/assignment_windows.py:198 | ordering by start keeps the items and the order of equal starts |
| AssignmentWindows.ChainIsTidy | src/zira_dashboard/assignment_windows.py:241-249 | closing items gives positive, ordered, disjoint segments within shift and cap |
| AssignmentWindows.ChainMeans | src/zira_dashboard/assignment_windows.py:241-249 | at each instant the person is where the item started last says, if it has not ended |
| AssignmentWindows.FillTiles | src/zira_dashboard/assignment_windows.py:223-238 | schedule and detours tile the shift without gap or overlap |
| AssignmentWindows.FillMeans | src/zira_dashboard/assignment_windows.py:223-238 | detours stay, the rest is the scheduled center's |
| AssignmentWindows.SegmentsAreTidy | src/zira_dashboard/assignment_windows.py:147-250 | every person's segments are positive, disjoint and inside the shift |
| AssignmentWindows.PunchedGetPunches | src/zira_dashboard/assignment_windows.py:173-194 | a punched person has only punch segments |
| AssignmentWindows.ScheduledPersonIsTiled | src/zira_dashboard/assignment_windows.py:207-239 | unpunched with exactly one scheduled center: the segments tile the shift up to the cap, whatever the attributions, with the attribution started last while it runs and the scheduled center otherwise |
| AssignmentWindows.OthersAreWhereLastStarted | src/zira_dashboard/assignment_windows.py:241-249 | anyone else is where the item started last says |
| AssignmentWindows.TilesAreTidy | src/zira_dashboard/assignment_windows.py:223-238 | a tiling is disjoint and covers every instant |
| AssignmentWindows.CollectedExactly | src/zira_dashboard/assignment_windows.py:168-194 | what is collected for a person, in order: nothing if excluded, only the windows with a named center if punched, otherwise every listing away from the time-off list and then every attribution |
| AssignmentWindows.CollectedAsOften | src/zira_dashboard/assignment_windows.py:168-194 | each item is collected as often as the inputs name it: a schedule item once for every listing, a punch item for every such window, an attribution item for every such row, the first and last only without punches |
| AssignmentWindows.CentersCount | src/zira_dashboard/assignment_windows.py:173-180 | as many centers as positions in the assignments that list the person there, away from the time-off list |
| AssignmentWindows.PunchesCount | src/zira_dashboard/assignment_windows.py:182-187 | as many punch items as windows of the person with that named center |
| AssignmentWindows.AttributionsCount | src/zira_dashboard/assignment_windows.py:189-194 | as many attribution items as rows of the person |
| AssignmentWindows.ScheduledExactly | src/zira_dashboard/assignment_windows.py:173-180 | a schedule item is collected exactly if some assignment other than the time-off list names the person there |
| AssignmentWindows.ListedOnceIsOneCenter | src/zira_dashboard/assignment_windows.py:173-180 | a person listed exactly once has exactly one scheduled center |
| AssignmentWindows.UnpunchedItems | src/zira_dashboard/assignment_windows.py:213-214 | without punches the items are the listings and the attributions |
| AssignmentWindows.CrewCoversShift | src/zira_dashboard/assignment_windows.py:207-239 | a person not punched, not excluded and listed exactly once is at that center for the whole shift, except where the attribution started last runs |
| AssignmentWindows.OthersFollowItems | src/zira_dashboard/assignment_windows.py:241-249 | punched people, and people listed never or more than once, are where the last item started says, of the items read off the inputs |
| AssignmentWindows.ExcludedGetNothing | src/zira_dashboard/assignment_windows.py:168-171 | excluded people get nothing |
| AssignmentWindows.EveryoneFollowsInputs | src/zira_dashboard/assignment_windows.py:147-250 | these three together, for everybody |
| AssignmentWindows.Collect | src/zira_dashboard/assignment_windows.py:168-194 | the collecting loops group exactly the entries the precedence rules allow |
| AssignmentWindows.Close | src/zira_dashboard/assignment_windows.py:241-249 | the closing loop computes the chain |
| AssignmentWindows.FillAround | src/zira_dashboard/assignment_windows.py:223-238 | the cursor loop computes the filling |
| AssignmentWindows.ResolveSegments | src/zira_dashboard/assignment_windows.py:147-250 | each person gets exactly their own segments, in order: nothing if excluded; for a person without punches listed exactly once away from the time-off list, that center for the whole shift up to the cap except where an attribution runs; for everybody else where the item started last says |
| TtlCache.TTLCache.constructor | src/zira_dashboard/_cache.py:27-34 | an empty cache in generation zero, for any entry bound |
| TtlCache.TTLCache.Put | src/zira_dashboard/_cache.py:49-59 | the eviction loop drops the oldest entries until the bound holds, and fails exactly for a negative bound, leaving nothing |
| TtlCache.TTLCache.Begin | src/zira_dashboard/_cache.py:36-47 | returns a live entry exactly if there is one, which is then the youngest, and the generation the compute begins in |
| TtlCache.TTLCache.Publish | src/zira_dashboard/_cache.py:50-60 | stores exactly when the generation has not moved; the stored entry survives eviction if anything can |
| TtlCache.TTLCache.Peek | src/zira_dashboard/_cache.py:62-77 | returns a live entry exactly if there is one and drops an expired one |
| TtlCache.TTLCache.Set | src/zira_dashboard/_cache.py:79-88 | the written entry is there and every compute in flight is cut off |
| TtlCache.TTLCache.Invalidate | src/zira_dashboard/_cache.py:90-96 | removes exactly the named entry or all, and cuts off every compute in flight |
| TtlCache.StoreKeeps | src/zira_dashboard/_cache.py:53-59 | keys stay distinct, the size within bounds, the stored entry present if the bound is at least one, the others only from before |
| TtlCache.StoreDropsOldest | src/zira_dashboard/_cache.py:53-59 | a full cache drops exactly the oldest of the other entries, as many as it is over the bound |
| TtlCache.NoStalePublication | src/zira_dashboard/_cache.py:36-96 | in every interleaving each cached result comes from a compute that began after the last set, invalidation of its key, or clear; the size bound holds |
| TtlCache.PublishedIffUndisturbed | src/zira_dashboard/_cache.py:36-60 | a compute is published exactly when nothing was set or invalidated since it began |
| TtlCache.BumpsBetween | src/zira_dashboard/_cache.py:33-34 | two generations agree exactly when nothing was set or invalidated in between |
| SyncErrors.StringRoundTrip | src/zira_dashboard/attendance_mirror.py:118-122 | escaping to ASCII and reading back gives the message, and costs at most twelve characters each |
| SyncErrors.TextRoundTrip | src/zira_dashboard/attendance_mirror.py:93-122 | the text at any limit decodes to the same owners with each message cut there |
| SyncErrors.OneCharacterFits | src/zira_dashboard/attendance_mirror.py:118-129 | one character per owner always fits, so the loop ends |
| SyncErrors.FittingLimit | src/zira_dashboard/attendance_mirror.py:118-129 | the shrinking limit reaches one at which the text fits |
| SyncErrors.LimitIsLoweredJustEnough | src/zira_dashboard/attendance_mirror.py:118-129 | the limit is lowered just so far that one character less per owner and cut makes up for the excess, or to one |
| SyncErrors.EscapeIsAscii | src/zira_dashboard/attendance_mirror.py:118-122 | every message is written in printable ASCII |
| SyncErrors.LegacyTextIsKept | src/zira_dashboard/attendance_mirror.py:93-108 | no text is no error, and a text that is no object of known owners is kept, cut at the limit, as a legacy message |
| SyncErrors.EncodeErrorState | src/zira_dashboard/attendance_mirror.py:111-129 | the loop terminates for all messages and computes the encoding |
| SyncErrors.EncodeKeepsOwners | src/zira_dashboard/attendance_mirror.py:93-129 | at most 500 characters, decoding to the same owners with non-empty prefixes, and to whole messages when those fit |
| SyncErrors.FailureKeepsOthers | src/zira_dashboard/attendance_mirror.py:138-144 | recording one owner's failure erases no other owner's error |
| SyncErrors.SuccessKeepsOthers | src/zira_dashboard/attendance_mirror.py:147-151 | clearing one owner's error erases no other's, and the column only when none is left |

## Left out

- AttendanceDays.NoChangedDayMissed: covers the days a commit reaches; for an open row on days not yet begun the claim is false, as `FutureDayMissed` shows, and `CommitMissesExactly` says exactly when.
- AttendanceAgreement.ProductionAgrees: what `prepare_day` computes from the view is not modelled, only which view it used; production written outside completed claims is not covered.
- AbsencePtoWorld.ApprovedMeansSettled: covers approval through the conversion; the review path does not look at the original absence.
- AbsencePtoConversion.PendingForLowBalance: does not claim that the original is validated; only the compensated return to pending guarantees that.
- AbsencePtoConversion.CheckBalance: balance, pay period and leave-type checks are answers of the surroundings.
- AbsencePtoStore.RequestStore.ClaimRequest: attempt counters, backoff times, error texts and the due-list filters of `claim_due` are not columns of the model, and budgets enter the review methods as flags.
- AbsencePtoStore.RequestStore.SaveTaskDelivery: stores the id only; attempts, retry time and error text are not columns of the model.
- AbsencePtoStore.RequestStore.SaveResolutionDelivery: stores the step only; attempts, retry time and error text are not columns of the model.
- AbsencePtoReview.ReadTask: the permanent duplicate error and a transient failure are one answer, since retry budgets are not modelled.
- AbsencePtoReview.ReconcileClaimed: reads are truthful here; manual resolution and denial by a person appear as effects of other owners, not as methods; task names, bodies and message texts are reduced to an exact-name task and a count of marked messages.
- OdooAttendance.FetchChangePages: response validation errors (missing fields, unparsable dates, a cursor that did not advance) cannot arise from an honest table and are not modelled.
- SyncErrors.TextRoundTrip: decoding reads the compact object of strings that encoding writes; any other JSON counts as legacy text, and lone surrogates are outside Dafny's characters.
- DepartmentRepair.RepairQueue.Reconcile: candidates and proofs arrive as maps, so the duplicate-id errors cannot arise; a half-filled successor cannot be represented.
- AttendanceSync.TakeChunk: chunks may be taken in any order, not only ascending.
- The repair worker `process_next`: it is a caller of the backend steps, which are proved for any callers in any order; exclusivity of the claim tuple across target refreshes is not claimed because the tuple can recur.
- The recalculation worker `process_next` and cache refreshing: its steps are the events of `AttendanceAgreement`; cache contents are not modelled.
- `expected_by_wc` and the operator labels: sums and formatting over resolved segments.
- Quick-punch smoothing, timelines, staffing hours, location policy, calendars, skills: case analysis and normalisation only.
- XML-RPC, SQL, connection pools, advisory locks, web pages, logging and audit rows: not part of this model.
