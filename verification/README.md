# Shanyraq: models and proofs of the platform's protocols and calculations

A Dafny model of the parts of the Shanyraq platform for apartment complexes that carry hard
properties: seven small protocols (emergency alerts, service requests, rate limiting, one-time
codes, ownership and voting, token refresh, the hold button), and four calculations (bookings and
their utilization, charges and balances, the CSV writer, the protection of identification numbers).

`dafny verify dfyconfig.toml` checks everything.

## How it is built

Every operation is a function from one state of the tables to the next, or to an error, with the
checks in the order of the code. Beside it stands a class whose fields are the tables and whose
methods do what the code does, step by step and with its loops; each method's contract ties the new
state to that function. Histories are values (`Start` and `Then`), so "in every reachable state" is
a statement about all histories, proved by induction. Alerts, service requests and one-time codes are
read, decided on and written later; there reading and writing are separate steps of many clients (`Sos`,
`ServiceRequests`, `OtpRaces`), and so are the parts of the token refresh between two awaits. The other
operations are single steps; "Left out" names those whose calls can overlap in the code.

A history of `Otp` is a sequence of calls on one number, each reading the clock at `now`, finding the
number as the call answered before it left it, and writing at `done`. It is in order if no call began
before one that is answered earlier. `OtpRaces` says which runs of overlapping calls are histories.

| file | models |
|---|---|
| `Prelude.dfy` | shared types, the tenant guard, the two rounding functions |
| `Sos.dfy` | emergency alerts: accept and resolve with a compare-and-set |
| `ServiceRequests.dfy` | service requests: an optimistic lock and an audit trail |
| `RateLimiter.dfy` | the Redis throttler script and the SMS guard |
| `Otp.dfy`, `OtpRaces.dfy` | one-time codes, misses and lockout; calls that do not overlap, and calls that do |
| `Bookings.dfy`, `Utilization.dfy`, `PeakUtilization.dfy` | the slot allocator and the report built from it |
| `Registry.dfy`, `Votings.dfy`, `VotingLaws.dfy`, `MeetingRuns.dfy`, `MeetingArea.dfy` | ownership, area-weighted voting, and both together |
| `Meters.dfy`, `Consumption.dfy`, `Finance.dfy`, `MonthlyCharges.dfy` | readings, what they bill, charges and balances, and the months of all of them |
| `Csv.dfy` | the CSV writer and a reader of section 2 of RFC 4180 |
| `TokenRefresh.dfy`, `HoldButton.dfy` | two client-side machines of the mobile app |
| `Pii.dfy` | encryption, masking and migration of identification numbers |

Times are milliseconds of one clock. Areas, money and percents are exact reals, or integers in
hundredths or tenths where the code rounds; `Round` is `Math.round`. Ids are row numbers where rows
are never deleted. A Redis key set to live d milliseconds from time t exists from t to t + d - 1.

## Where the code does not do what one would expect

Each of these is a lemma with a concrete input or the exact condition:

- `rateRequest` compares no version. A rating keeps the audit trail a chain exactly if it still sees
  the current status and assignee (`RatingKeepsTrailIff`); one that overtakes an update breaks it.
- A version is a time in milliseconds. A write in the same millisecond as the version it read leaves
  that version in place, and the lock then lets through the next update that had read it: exactly such
  a write goes unnoticed (`StaleUpdateCommitsIff`, and as a run `SameStampBreaksTrail`). Over all runs
  the trails are chains exactly if every commit sees the state it writes over (`RunIsAuditedIff`).
- The throttler admits up to 2 * limit - 1 requests in an interval as long as its window (the bound is
  reached), and the waiting time it announces is not always enough (`BackoffIsHonestIff`).
- Nothing keeps two checks of one phone number apart. Two that overlap can both use one code
  (`CodeCanBeUsedTwice`), a miss written late brings a used code back (`UsedCodeCanComeBack`), and any
  number of overlapping wrong guesses can count as one (`OverlappingGuessesAreUnbounded`). Over all runs
  the calls are answered as if one came after the other exactly if none writes what it would no longer
  decide (`HistoryThroughoutIff`). Single use holds in all such runs (`UndisturbedUseIsSparing`); the
  bounds on guesses, codes and lockouts in those answered in the order in which the calls began
  (`UndisturbedGuessingBound`; `LateIssueIsNotApart` shows what happens otherwise), so whenever calls do
  not overlap.
- The utilization report can show more than 100 percent: its default period touches one day more
  than it counts, and bookings may run to the end of the closing minute. `NeverOver100Iff` says
  exactly for which periods it never does: for bookings at any instant, and for bookings on whole minutes.
- Rejecting an ownership record that was already verified leaves the user marked as verified
  (`RejectedUserStaysVerified`). The mark stays right throughout a run exactly if no one's last
  verified record is rejected (`FlagsExactThroughoutIff`).
- A vote can lower the voted area, exactly if its unit voted before only on later agenda items and with
  more weight there (`VoteLowersAreaIff`), and it can take an achieved quorum away
  (`VoteCanLoseQuorum`). The stored quorum is rounded before it is compared, the reported one is not
  (`QuorumsDisagreeIff`).
- The voted area can exceed the eligible area. A vote's weight is rounded to hundredths, and the
  eligible area is fixed when the meeting is opened, while units added later may vote. No meeting
  exceeds it exactly if the areas of the tenant's units, each rounded to hundredths, add up to no more
  (`StaysWithinIff`; the two failing runs are `FineAreaExceeds100` and `LateUnitExceeds100`).
- A meter reading is compared with the latest verified reading of any month, when it is submitted and
  not when it is verified. So two months submitted before either is verified can fall
  (`OutOfOrderReadingsFall`); and a month submitted after a later one was verified must reach the later
  one's value, from which the readings then fall (`EarlierMonthReadingFalls`). `VerifyingKeepsRisingIff`
  is the exact condition.
- The CSV writer separates rows by CRLF but an empty last row looks like the optional last line
  break of RFC 4180 (`OptionalBreakRoundTripIff`). Empty rows read back as rows of one empty field.
- A request that waits for the token refresh while the tokens are being cleared is left in the queue
  when the refresh ends (`LeftEmptyIff`).
- A second run of the migration writes again, with the same values, the rows that hold an encrypted
  empty text (`MigrateTwiceIsOnce`).
- `iinHash` is unique, so while two users have one number no run of the migration finishes
  (`SameNumberStops`, `SoundTableFinishesIff`); what it wrote before it stopped stays.

## Model

| member | source | states |
|---|---|---|
| Sos.SosService.Trigger | backend/src/modules/sos/sos.service.ts:86-129 | a resident gets a new active alert unless one of theirs is active already |
| Sos.SosService.CommitAccept | backend/src/modules/sos/sos.service.ts:485-493 | the guarded update of accept: it succeeds exactly on an active, untaken alert of the tenant read, sets acceptor and time and appends one audit entry; otherwise a conflict and nothing changes |
| Sos.SosService.CommitResolve | backend/src/modules/sos/sos.service.ts:502-524 | the guarded update of resolve with its handover note and audit entry in one step, or a conflict and nothing changes |
| Sos.CommitKeepsConsistent | backend/src/modules/sos/sos.service.ts:485-524 | one transaction keeps row, audit log and notes of every alert in agreement and changes alerts only lawfully |
| Sos.CommitKeepsSigned | backend/src/modules/sos/sos.service.ts:491-521 | every audit entry is by the alert's acceptor, entitled and of its tenant; closing entries and notes repeat the row |
| Sos.EveryRunIsConsistent | backend/src/modules/sos/sos.service.ts:457-527 | under every interleaving of reads and commits of any clients: a closed alert has resolver = acceptor, acceptedAt <= resolvedAt, exactly one note, one SOS_RESOLVED and at most one SOS_ACCEPTED entry |
| Sos.HistoryIsStable | backend/src/modules/sos/sos.service.ts:482-527 | however a run goes on, a closed alert stays as it was, an acceptor is never replaced, log and notes only grow |
| Sos.CommitSucceedsIffUnchanged | backend/src/modules/sos/sos.service.ts:486-514 | the two compared columns detect every change: a pending attempt commits if and only if the whole row is still the one read |
| Sos.CommitTakesEffect | backend/src/modules/sos/sos.service.ts:485-524 | a successful commit makes the alert the user's, closes it if it resolves, adds exactly its own rows to log and notes and leaves other alerts alone |
| Sos.OneActivePerResident | backend/src/modules/sos/sos.service.ts:86-129 | in every reachable state no resident has two active alerts |
| Sos.PressRaisesAlert | backend/src/modules/sos/sos.service.ts:86-129 | after a press, in every reachable state, the resident has exactly one active alert; if they had none it is new, of the tenant, taken by nobody, and all that changed; if they had one nothing changed |
| Sos.AcceptBeginsIff | backend/src/modules/sos/sos.service.ts:457-484 | accept goes on exactly for staff of the alert's tenant who are no chairman, or a superadmin, on an active alert nobody else has taken; otherwise the error is a true reason |
| Sos.ResolveBeginsIff | backend/src/modules/sos/sos.service.ts:457-501 | resolve likewise, with an outcome and a comment of at most 1600 characters |
| Sos.AcceptSucceeds | backend/src/modules/sos/sos.service.ts:457-493 | in every reachable state such a user who is not disturbed takes an untaken alert, and what is written says so |
| Sos.ResolveSucceeds | backend/src/modules/sos/sos.service.ts:457-524 | and closes an alert, with outcome, comment, handover note and audit entry; an untaken one counts as taken then |
| ServiceRequests.ServiceRequestsService.CreateRequest | backend/src/modules/service-requests/service-requests.service.ts:67-76 | a new request is pending and unassigned, under the next id |
| ServiceRequests.ServiceRequestsService.CommitUpdate | backend/src/modules/service-requests/service-requests.service.ts:263-288 | the update and its audit entry in one step if the version read is still current, else a conflict and nothing changes |
| ServiceRequests.ServiceRequestsService.CommitRating | backend/src/modules/service-requests/service-requests.service.ts:399-413 | the rating closes the request whatever it finds; the entry, if any, quotes the row read |
| ServiceRequests.UpdateKeepsTrail | backend/src/modules/service-requests/service-requests.service.ts:263-283 | in every state where equal versions of a request mean equal rows, an update that passes the lock keeps its audit chain |
| ServiceRequests.UpdateKeepsTrailIff | backend/src/modules/service-requests/service-requests.service.ts:263-283 | in any state, an update that passes the lock keeps the chain if and only if it saw the current status and assignee |
| ServiceRequests.StaleUpdateCommitsIff | backend/src/modules/service-requests/service-requests.service.ts:263-269 | after another write the lock still lets an update through if and only if that write was stamped with the very version the update had read |
| ServiceRequests.UpdateTakesEffect | backend/src/modules/service-requests/service-requests.service.ts:263-283 | a successful update shows in the request and at the end of its trail, and in no other request |
| ServiceRequests.RatingTakesEffect | backend/src/modules/service-requests/service-requests.service.ts:399-413 | a rating closes the request, keeps its assignee, keeps an earlier comment if it brings none, and writes an entry exactly if it saw the request open |
| ServiceRequests.UpdateBeginsIff | backend/src/modules/service-requests/service-requests.service.ts:212-261 | an update goes on exactly if the request exists, the caller may change it, the version named is current, a new assignee is an active handler of the tenant, and nothing becomes ASSIGNED to nobody |
| ServiceRequests.UpdateHolds | backend/src/modules/service-requests/service-requests.service.ts:256-283 | it then asks for the status and assignee given, or the assignee the request has; asking for what is there does nothing |
| ServiceRequests.UpdateRefused | backend/src/modules/service-requests/service-requests.service.ts:218-260 | each error has its reason |
| ServiceRequests.RatingBeginsIff | backend/src/modules/service-requests/service-requests.service.ts:383-398 | a rating goes on exactly for the creator |
| ServiceRequests.UpdateSucceeds | backend/src/modules/service-requests/service-requests.service.ts:212-283 | in every state such a caller who is not disturbed makes the change, and the trail says from what to what |
| ServiceRequests.CreateTakesEffect | backend/src/modules/service-requests/service-requests.service.ts:67-76 | creating appends a pending request assigned to nobody and changes nothing else |
| ServiceRequests.RatingKeepsTrailIff | backend/src/modules/service-requests/service-requests.service.ts:383-413 | a rating keeps the chain if and only if it still sees the current status and assignee |
| ServiceRequests.EveryOrderlyRunIsAudited | backend/src/modules/service-requests/service-requests.service.ts:212-288 | in every interleaving with fresh stamps and no overtaking rating: the entries of a request form a chain from (pending, nobody) to its current status and assignee, ASSIGNED has an assignee, assignees are active handlers of the tenant |
| ServiceRequests.RunIsAuditedIff | backend/src/modules/service-requests/service-requests.service.ts:212-413 | over all runs, whatever the stamps: the chains hold after every step if and only if every attempt that commits sees the status and assignee it writes over |
| ServiceRequests.AssigneesAreNeverCleared | backend/src/modules/service-requests/service-requests.service.ts:256-269 | however such a run goes on, an assignee never goes back to nobody and the trail only grows |
| ServiceRequests.OvertakingRatingBreaksTrail | backend/src/modules/service-requests/service-requests.service.ts:383-413 | a run in which a rating read before an update and written after it breaks the chain |
| ServiceRequests.SameStampBreaksTrail | backend/src/modules/service-requests/service-requests.service.ts:263-283 | a run in which a write is stamped with the version it read, the next update passes the lock and the chain breaks |
| RateLimiter.RedisThrottlerStorage.Increment | backend/src/redis/redis-throttler.storage.ts:17-77 | the Lua script, command by command: new counter and block key, the answer, and no other key touched |
| RateLimiter.MarkerIsNoBucket | backend/src/redis/redis-throttler.storage.ts:62-66 | the fail-closed marker does not change a key's bucket |
| RateLimiter.PhoneOtpRateLimitGuard.CanActivate | backend/src/common/guards/phone-otp-rate-limit.guard.ts:35-90 | a request is admitted exactly for the first three counts of a ten-minute window; no phone, no count |
| RateLimiter.NormalizeIsIdempotent | backend/src/common/guards/phone-otp-rate-limit.guard.ts:14-23 | a normalised number is its own normal form |
| RateLimiter.NationalFormsAgree | backend/src/common/guards/phone-otp-rate-limit.guard.ts:14-23 | ten digits alone, after 7 or 8, with or without a plus, have one normal form |
| RateLimiter.NormalFormIs | backend/src/common/guards/phone-otp-rate-limit.guard.ts:14-23 | the normal form of any spelling, from its digits and its leading plus |
| RateLimiter.BucketsAgreeIff | backend/src/common/guards/phone-otp-rate-limit.guard.ts:14-52 | two spellings of national numbers share a bucket if and only if their last ten digits agree, if the hash tells texts apart |
| RateLimiter.AdmissionBounds | backend/src/redis/redis-throttler.storage.ts:17-51 | over every hit sequence: at most limit admissions per counter window and at most 2 * limit - 1 in any interval of length ttl |
| RateLimiter.HitsAreCounted | backend/src/redis/redis-throttler.storage.ts:17-51 | over every hit sequence: each answer, its count and both waiting times are what counting the hits of the running window and the last overrun says, without keys or expiry times |
| RateLimiter.SlidingBoundIsReached | backend/src/redis/redis-throttler.storage.ts:30-50 | the sliding bound is tight for every limit and every ttl of at least 2 |
| RateLimiter.PhoneBounds | backend/src/common/guards/phone-otp-rate-limit.guard.ts:51-84 | at most five messages to one number in any ten minutes |
| RateLimiter.PhoneAdmitsIff | backend/src/common/guards/phone-otp-rate-limit.guard.ts:51-84 | a request passes the guard if and only if it is among the first three of its ten-minute window |
| RateLimiter.NothingPassesABlock | backend/src/redis/redis-throttler.storage.ts:23-28 | while the block key lives every hit is refused and nothing changes |
| RateLimiter.BackoffIsHonestIff | backend/src/redis/redis-throttler.storage.ts:23-50 | who waits as long as a refusal says is admitted, for all histories, if and only if limit >= 1 and the block lasts at least the window (or both fit into the announced second) |
| Otp.AuthService.RequestOtp | backend/src/modules/auth/auth.service.ts:68-130 | issuing a code, read at `now` and written at `done` with nothing else happening to the number in between: refused while locked or within 60 s of the last, else a fresh code for five minutes; other numbers untouched |
| Otp.AuthService.VerifyOtpCode | backend/src/modules/auth/auth.service.ts:146-254 | checking a code, likewise: locked, absent, expired, match, miss, or third miss with lockout; other numbers untouched. `verifyVoteOtp` (318-425) is the same |
| Otp.CodeIsUsedSparingly | backend/src/modules/auth/auth.service.ts:207-251 | over all histories, in whatever order the calls began: every issued code is accepted at most once and compared at most three times in all |
| Otp.AcceptedIff | backend/src/modules/auth/auth.service.ts:195-253 | over histories in order a check, whatever text it submits, succeeds if and only if it has the latest code, which is ASCII, unused, missed less than three times, at most five minutes old, and its key lives |
| Otp.KeyOutlivesCode | backend/src/modules/auth/auth.service.ts:116-231 | the key lives for all of the five minutes, so before their last millisecond only the code matters |
| Otp.LockedIff | backend/src/modules/auth/auth.service.ts:72-86 | over histories in order a call is refused as locked if and only if a check missed for the third time less than 600 s ago: every lockout holds and every lockout ends |
| Otp.IssuedIff | backend/src/modules/auth/auth.service.ts:68-130 | over histories in order a code is issued if and only if there was no third miss in the last 600 s and no code neither accepted nor used up was issued in the last 60 s; otherwise the answer is locked or too soon |
| Otp.CheckedIff | backend/src/modules/auth/auth.service.ts:146-254 | over histories in order the answer to every check, told from the earlier answers alone |
| Otp.LockoutHolds | backend/src/modules/auth/auth.service.ts:149-172 | over histories in order, after a third miss nothing is issued or compared for 600 s |
| Otp.IssuesAreApart | backend/src/modules/auth/auth.service.ts:92-112 | over histories in order, two codes with no success between them are at least 60 s apart |
| Otp.IssueBound | backend/src/modules/auth/auth.service.ts:92-130 | over histories in order, a success-free interval of T ms holds at most 1 + T / 60 s issues |
| Otp.LockoutBound | backend/src/modules/auth/auth.service.ts:209-223 | over histories in order, an interval of T ms holds at most 1 + T / 600 s lockouts |
| Otp.MissesByCode | backend/src/modules/auth/auth.service.ts:207-246 | over histories in order, misses are at most two per code issued, plus the lockouts, plus what the current code leaves |
| Otp.GuessingBound | backend/src/modules/auth/auth.service.ts:58-254 | over histories in order, a success-free interval of T ms holds at most 2 (2 + T / 60 s) + 1 + T / 600 s misses, so at most 3 (2 + T / 60 s) |
| OtpRaces.FlightIsAnswer | backend/src/modules/auth/auth.service.ts:68-254 | a call whose reads and write are separate steps, with nothing in between, does and answers what the one step of `Otp` does |
| OtpRaces.HistoryThroughoutIff | backend/src/modules/auth/auth.service.ts:68-254 | over all runs, however calls overlap: after every step state and answers are those of the history of the finished calls, if and only if every call, when it writes, would on the number as it then is still give its answer and leave the same number |
| OtpRaces.NoOverlapIsSerial | backend/src/modules/auth/auth.service.ts:58-254 | a run of separate reads and writes in which calls on the number do not overlap is a history of `Otp` in order: same answers, same state |
| OtpRaces.NoOverlapIsUndisturbed | backend/src/modules/auth/auth.service.ts:58-254 | calls that do not overlap meet that condition and are answered in the order in which they began |
| OtpRaces.UndisturbedUseIsSparing | backend/src/modules/auth/auth.service.ts:171-252 | under that condition, in whatever order: between two issues at most one check succeeds and at most three are compared with the code |
| OtpRaces.InTurnIsOrdered | backend/src/modules/auth/auth.service.ts:68-254 | a run that answers calls in the order in which they began has a history in order, so all that is said of those applies |
| OtpRaces.UndisturbedGuessingBound | backend/src/modules/auth/auth.service.ts:58-254 | under that condition and in that order a run of T ms without a success has at most 3 (2 + T / 60 s) misses |
| OtpRaces.SerialGuessingBound | backend/src/modules/auth/auth.service.ts:58-254 | in particular in every run of T ms without overlap and without a success |
| OtpRaces.CodeCanBeUsedTwice | backend/src/modules/auth/auth.service.ts:171-252 | a run with two overlapping checks of the right code: both succeed |
| OtpRaces.UsedCodeCanComeBack | backend/src/modules/auth/auth.service.ts:171-252 | a run in which a miss written late restores a code already used, and it is accepted again |
| OtpRaces.TwoIssuesAtOnce | backend/src/modules/auth/auth.service.ts:92-130 | a run in which two overlapping requests issue two codes in one millisecond |
| OtpRaces.LateIssueIsNotApart | backend/src/modules/auth/auth.service.ts:92-130 | a run that meets the condition but not the order: two codes of one time, the second written after the first expired |
| OtpRaces.OverlappingGuessesAreUnbounded | backend/src/modules/auth/auth.service.ts:171-238 | for every n a run with n wrong guesses of one code in one millisecond, of which its counter holds at most one |
| Bookings.BookingsService.FindConflict | backend/src/modules/bookings/bookings.service.ts:294-301 | finds whether some standing booking of the resource overlaps the slot |
| Bookings.BookingsService.CreateBooking | backend/src/modules/bookings/bookings.service.ts:212-339 | all checks in order, then a confirmed booking; on any error nothing changes |
| Bookings.BookingsService.JoinWaitlist | backend/src/modules/bookings/bookings.service.ts:346-440 | only a taken slot has a waitlist, and a unit waits once for it |
| Bookings.BookingsService.LeaveWaitlist | backend/src/modules/bookings/bookings.service.ts:452-473 | exactly one's own entry can be removed |
| Bookings.BookingsService.CancelBooking | backend/src/modules/bookings/bookings.service.ts:602-653 | the booker or staff cancels a standing booking, once, and its slot's waiters go |
| Bookings.BookingsService.NotifyAndClearWaitlist | backend/src/modules/bookings/bookings.service.ts:660-705 | exactly the entries of the freed slot are deleted |
| Bookings.Cleared | backend/src/modules/bookings/bookings.service.ts:666-701 | what is left of the waitlist: an entry stays, unchanged, if and only if it is not for this slot |
| Bookings.ApplyKeepsInv | backend/src/modules/bookings/bookings.service.ts:212-705 | every operation keeps bookings disjoint, allowed, and waitlist entries unique |
| Bookings.EveryRunIsDisjoint | backend/src/modules/bookings/bookings.service.ts:293-318 | in every reachable state no two standing bookings of one resource overlap, all were within hours and limit |
| Bookings.BookedSlotIsTaken | backend/src/modules/bookings/bookings.service.ts:293-318 | booking takes a free slot |
| Bookings.CancelFreesSlot | backend/src/modules/bookings/bookings.service.ts:634-641 | cancelling undoes booking: in every allowed state the slot is free again |
| Bookings.CancelledSlotCanBeBooked | backend/src/modules/bookings/bookings.service.ts:212-641 | in every reachable state, once a booking is cancelled, whoever may ask for its slot next gets it |
| Bookings.BooksIff | backend/src/modules/bookings/bookings.service.ts:212-339 | a booking is made if and only if the resource is active, the user a verified resident, the slot in the future, within the hours and the limit in milliseconds, and shares no time with a standing booking; it is all that changes |
| Bookings.JoinsIff | backend/src/modules/bookings/bookings.service.ts:346-440 | a unit joins a waitlist if and only if it could ask for the slot, the slot is not free and the unit does not wait for it |
| Bookings.LeavesIff | backend/src/modules/bookings/bookings.service.ts:452-473 | an entry is left if and only if it is one's own, and only it goes |
| Bookings.CancelsIff | backend/src/modules/bookings/bookings.service.ts:602-705 | a booking is cancelled if and only if it stands and the actor booked it or is staff of the resource's tenant or a superadmin; exactly those who waited for its slot go |
| Bookings.RefusalsAreTrue | backend/src/modules/bookings/bookings.service.ts:212-630 | each error has its reason |
| Bookings.ConflictIsSharedTime | backend/src/modules/bookings/bookings.service.ts:294-301 | the conflict query holds if and only if the two share a millisecond |
| Bookings.LengthLimit | backend/src/modules/bookings/bookings.service.ts:277-284 | a booking passes a limit of m minutes if and only if it lasts less than m minutes and 30 s |
| Bookings.HoursInMilliseconds | backend/src/modules/bookings/bookings.service.ts:757-778 | what the hours check means in milliseconds: one UTC day, from opening to the end of the closing minute |
| Utilization.GetBookingUtilization | backend/src/modules/analytics/analytics.service.ts:944-994 | one pass over the bookings and one over the resources gives each resource its counted bookings, hours and percent, zero where there are none |
| Utilization.ReportSays | backend/src/modules/analytics/analytics.service.ts:944-983 | a line of the report counts the standing bookings that begin in the period, and gives their time, the time available over the fewest days that cover the period, and the ratio, each to the nearest tenth |
| Utilization.PackingBound | backend/src/modules/analytics/analytics.service.ts:946-956 | disjoint bookings inside a daily window total at most days touched times the window |
| Utilization.BookedWithinHours | backend/src/modules/bookings/bookings.service.ts:286-318 | what the allocator lets through on whole minutes fits into the hours the report counts with |
| Utilization.UtilizationAtMost100 | backend/src/modules/analytics/analytics.service.ts:959-983 | if the period touches no more days than it counts, the percent after all three roundings is at most 100 in every reachable state |
| Utilization.PeriodIsAlignedIff | backend/src/modules/analytics/analytics.service.ts:959-962 | which periods touch no more days than they count, and that they never touch two more |
| Utilization.BookedWithinClosingMinute | backend/src/modules/bookings/bookings.service.ts:757-778 | without whole minutes each day holds at most 59.999 s more |
| Utilization.UnalignedPeriodExceeds100 | backend/src/modules/analytics/analytics.service.ts:904-983 | three bookings and a period from noon to noon: 166.7 percent |
| Utilization.SecondsExceed100 | backend/src/modules/bookings/bookings.service.ts:757-778 | two bookings to the end of the closing minute on two whole days: 200 percent |
| PeakUtilization.BookedAtMostPeak | backend/src/modules/bookings/bookings.service.ts:276-318 | no reachable state has more time counted in a period than its peak, for bookings at any instant and, with a lower peak, for bookings on whole minutes |
| PeakUtilization.NoRunPassesPeak | backend/src/modules/analytics/analytics.service.ts:943-983 | no run, of either kind, makes the report show more than the peak percent |
| PeakUtilization.PeakIsReached | backend/src/modules/analytics/analytics.service.ts:943-983 | and some run of that kind makes it show exactly that |
| PeakUtilization.NeverOver100Iff | backend/src/modules/analytics/analytics.service.ts:959-983 | a period's report never exceeds 100 percent, over all runs of either kind, if and only if its peak percent does not |
| Registry.PropertiesService.AddUnit | backend/src/modules/properties/properties.service.ts:367-404 | a unit of at least one square metre is added and both cached areas follow; otherwise nothing changes |
| Registry.PropertiesService.RecalculateAreas | backend/src/modules/properties/properties.service.ts:1080-1099 | the cached areas and unit count become the sums over the unit table |
| Registry.PropertiesService.ClaimOwnership | backend/src/modules/properties/properties.service.ts:406-475 | one claim per user and unit, a share in (0, 100] that still fits the verified ones; the user joins the tenant |
| Registry.PropertiesService.SumShares | backend/src/modules/properties/properties.service.ts:446-449 | the verified shares of a unit, without one record |
| Registry.PropertiesService.VerifyOwnership | backend/src/modules/properties/properties.service.ts:477-607 | approval with the final share if all verified shares still fit, or rejection, which deletes the record |
| Registry.PropertiesService.UnlinkOwnership | backend/src/modules/properties/properties.service.ts:1007-1078 | removes a verified record; the user's flag goes with the last one |
| Registry.ApplyKeepsInv | backend/src/modules/properties/properties.service.ts:367-607 | every operation keeps shares, records, flags and cached areas right |
| Registry.EveryRunIsOk | backend/src/modules/properties/properties.service.ts:406-607 | over all runs: verified shares of a unit sum to at most 100, one record per user and unit, whoever holds a verified record is marked verified, cached areas are the sums |
| Registry.SharesBalance | backend/src/modules/properties/properties.service.ts:451-583 | every operation moves the verified shares of every unit by exactly what it is about |
| Registry.AreasBalance | backend/src/modules/properties/properties.service.ts:1080-1099 | a new unit raises the cached area of its building and tenant by its own, and no other |
| Registry.AddsUnitIff | backend/src/modules/properties/properties.service.ts:367-404 | a unit is added if and only if it has a square metre, its building exists and the caller, if any, manages the tenant |
| Registry.ClaimsIff | backend/src/modules/properties/properties.service.ts:406-475 | a claim is accepted if and only if the unit exists, the user has no record of it, and the positive share fits the verified ones; the user joins the tenant and an unverified record is added |
| Registry.ApprovesIff | backend/src/modules/properties/properties.service.ts:477-605 | an approval succeeds if and only if staff of the tenant give it and the final share, at least 0.01, fits the other verified shares; record and user become verified |
| Registry.RejectsIff | backend/src/modules/properties/properties.service.ts:532-572 | a rejection succeeds if and only if staff of the tenant give it; the record goes, and the user leaves the tenant if and only if they have no other record there |
| Registry.UnlinksIff | backend/src/modules/properties/properties.service.ts:1007-1059 | unlinking succeeds if and only if staff of the tenant do it on a verified record; the record goes, and the user stays verified if and only if another verified record is left |
| Registry.RefusalsAreTrue | backend/src/modules/properties/properties.service.ts:367-1040 | each error has its reason |
| Registry.UnlinkKeepsFlagExact | backend/src/modules/properties/properties.service.ts:1033-1059 | unlinking keeps "marked verified if and only if a verified record exists" |
| Registry.RejectionKeepsFlagExactIff | backend/src/modules/properties/properties.service.ts:532-559 | rejecting keeps it if and only if the record was not verified or not the user's last verified one |
| Registry.FlagsExactThroughoutIff | backend/src/modules/properties/properties.service.ts:477-1078 | over all runs: exactly the holders of verified records are marked verified after every step, if and only if no one's last verified record is ever rejected |
| Registry.RejectedUserStaysVerified | backend/src/modules/properties/properties.service.ts:532-559 | a run of claim, approval and rejection that leaves a user marked verified with no record |
| Votings.VotingsService.CastVote | backend/src/modules/votings/votings.service.ts:169-303 | all checks in order; then exactly this meeting's item gets the weighted vote and the stored quorum is renewed |
| Votings.VotingsService.UpdateMeetingQuorum | backend/src/modules/votings/votings.service.ts:499-531 | stores the rounded percent of the voted area and its comparison with the threshold |
| Votings.VotedArea | backend/src/modules/votings/votings.service.ts:511-521 | the map of first weights sums to the area of the units that voted |
| Votings.CollectItem | backend/src/modules/votings/votings.service.ts:512-518 | the map holds each unit's first weight and every voting unit once |
| Votings.TallyItem | backend/src/modules/votings/votings.service.ts:652-660 | the three tallies of an item are the weights per choice |
| Votings.DecideItem | backend/src/modules/votings/votings.service.ts:648-672 | one item's tallies and approval: a qualified majority is 66.67 percent of the eligible area, a simple one more area for than against and abstained together |
| Votings.EnrichMeeting | backend/src/modules/votings/votings.service.ts:635-731 | tallies and approval of every item, voted area, participants and quorum over the same votes; approval and quorum are also stated on the areas returned |
| Votings.ThreeChoices | backend/src/modules/votings/votings.service.ts:658-662 | for, against and abstain add up to all votes of an item |
| VotingLaws.FirstTotalBySums | backend/src/modules/votings/votings.service.ts:511-521 | the voted area is the sum over units of their first weight |
| VotingLaws.MoreVotesMoreArea | backend/src/modules/votings/votings.service.ts:511-521 | with one weight per unit, more votes never give less voted area |
| VotingLaws.VoteNeverLowersQuorum | backend/src/modules/votings/votings.service.ts:499-531 | with one weight per unit, casting a vote lowers neither area, stored percent nor an achieved quorum |
| VotingLaws.VoteLowersAreaIff | backend/src/modules/votings/votings.service.ts:511-521 | a vote lowers the voted area if and only if its unit voted before on later items only, first with more weight |
| VotingLaws.ParticipantsGrow | backend/src/modules/votings/votings.service.ts:512-518 | a unit that took part stays counted whatever is cast |
| VotingLaws.OrderDoesNotMatter | backend/src/modules/votings/votings.service.ts:511-521 | with one weight per unit the voted area does not depend on the order of the items |
| VotingLaws.QualifiedApprovalHasQuorum | backend/src/modules/votings/votings.service.ts:662-672 | an approval by 66.67 percent of the eligible area implies a quorum, stored and reported |
| VotingLaws.QuorumsDisagreeIff | backend/src/modules/votings/votings.service.ts:522-523 | the reported quorum implies the stored one; they differ exactly in [threshold - 0.005, threshold) |
| VotingLaws.SimpleMajorityIff | backend/src/modules/votings/votings.service.ts:660-665 | with weights that are not negative a simple majority is more area for than against and abstained together |
| VotingLaws.SimpleMajorityFollowsVotes | backend/src/modules/votings/votings.service.ts:660-665 | one more vote for never withdraws it, one more against or abstaining never creates it |
| VotingLaws.QuorumsInAreas | backend/src/modules/votings/votings.service.ts:511-523 | the reported quorum is half the eligible area, the stored one 49.995 percent of it; the stored percent is right to half a hundredth |
| VotingLaws.ParticipantsAreUnits | backend/src/modules/votings/votings.service.ts:635-727 | participants are the units that voted, each once |
| VotingLaws.VoteCountsIff | backend/src/modules/votings/votings.service.ts:169-266 | a vote is accepted if and only if the account is active, the item exists, the meeting is on and in its period, the user is a verified owner of a unit of its tenant that has not voted on the item, and the code was right |
| VotingLaws.AcceptedVoteIs | backend/src/modules/votings/votings.service.ts:256-290 | it is then the item's last vote, with area times share to half a hundredth; everything else about the meeting stays |
| VotingLaws.QuorumIsRenewed | backend/src/modules/votings/votings.service.ts:499-531 | and the stored quorum is that of all votes so far |
| VotingLaws.VoteIsRefused | backend/src/modules/votings/votings.service.ts:169-262 | each error has its reason |
| VotingLaws.OpensIff | backend/src/modules/votings/votings.service.ts:51-106 | a meeting is opened if and only if its tenant has some area; it has the items asked for and no votes |
| VotingLaws.WeightWithinCap | backend/src/modules/votings/votings.service.ts:258-258 | a vote weighs at most its unit's area, rounded to hundredths |
| VotingLaws.WeightWithinAreaIff | backend/src/modules/votings/votings.service.ts:258-258 | and at most the area itself, for every share, if and only if the area does not round up |
| VotingLaws.VotedAreaWithinCap | backend/src/modules/votings/votings.service.ts:511-521 | the voted area stays within the rounded areas of the tenant's units |
| VotingLaws.VoteCountsOnce | backend/src/modules/votings/votings.service.ts:268-290 | an accepted vote adds its weight to its own choice of its own item and to nothing else |
| VotingLaws.NoSecondVote | backend/src/modules/votings/votings.service.ts:237-253 | after it every further vote for that unit on that item is refused, whatever happened to the registry |
| MeetingRuns.NewMeetingIsOk | backend/src/modules/votings/votings.service.ts:51-106 | a new meeting takes the tenant's cached area, positive, as its eligible area, and has no votes |
| MeetingRuns.VoteIsLawful | backend/src/modules/votings/votings.service.ts:215-258 | an accepted vote is by a unit of the meeting's tenant and no heavier than the unit |
| MeetingRuns.EveryRunIsOk | backend/src/modules/votings/votings.service.ts:169-303 | over all runs of registry and meetings: one vote per unit and item, lawful votes, an up-to-date stored quorum |
| MeetingRuns.ClosedMeetingTakesNoVote | backend/src/modules/votings/votings.service.ts:198-203 | whatever happens after a meeting was closed, it stays as it was |
| MeetingRuns.MeetingWithinCap | backend/src/modules/votings/votings.service.ts:652-668 | every item's votes and the meeting's voted area stay within the tenant's rounded areas |
| MeetingRuns.VotedAreaWithinEligible | backend/src/modules/votings/votings.service.ts:499-521 | end to end: for areas in hundredths and no unit added since the meeting opened, all totals stay within the eligible area and no quorum passes 100 percent |
| MeetingRuns.VoteCanLoseQuorum | backend/src/modules/votings/votings.service.ts:268-303 | a run in which two co-owners vote for one unit, the later item first, and the second vote takes the achieved quorum away |
| MeetingArea.StaysWithinIff | backend/src/modules/votings/votings.service.ts:51-303 | for any units of a tenant, some perhaps added after the meeting was opened: every reachable meeting stays within its eligible area if and only if the units' areas, each rounded to hundredths, add up to no more than it |
| MeetingArea.FullTurnout | backend/src/modules/votings/votings.service.ts:169-303 | with a full turnout the voted area is exactly that sum: the run, from an empty registry to the last vote |
| MeetingArea.FineAreaExceeds100 | backend/src/modules/votings/votings.service.ts:258-258 | a run with one unit of 1.005 square metres: its vote exceeds the eligible area |
| MeetingArea.LateUnitExceeds100 | backend/src/modules/votings/votings.service.ts:69-84 | a run with a second unit added after the meeting was opened: 200 percent |
| Meters.PeriodsAreMonths | backend/src/modules/finance/finance.service.ts:293-306 | the query's order on year and month is the order of periods |
| Meters.FindReading | backend/src/modules/meters/meters.service.ts:202-210 | the first row of a meter and period |
| Meters.FindAt | backend/src/modules/finance/finance.service.ts:277-284 | a row found fits the query, and none fits if none is found |
| Meters.FindLatest | backend/src/modules/meters/meters.service.ts:187-190 | the verified row of the greatest period |
| Meters.LatestVerified | backend/src/modules/finance/finance.service.ts:292-306 | it is verified, before the bound, and no other such row has a later period |
| Meters.MetersService.SubmitReading | backend/src/modules/meters/meters.service.ts:148-245 | all checks in order; a rejected reading of the period is overwritten, any other refused, else a pending one is added |
| Meters.MetersService.ReviewReading | backend/src/modules/meters/meters.service.ts:363-398 | sets any status on an existing reading of the tenant |
| Meters.EveryRunIsUnique | backend/src/modules/meters/meters.service.ts:201-244 | at most one reading per meter and period in every reachable state |
| Meters.SubmitsIff | backend/src/modules/meters/meters.service.ts:148-245 | a reading is accepted if and only if it comes from a confirmed resident, on an active meter, is no less than the last verified one and its period has none but a rejected one |
| Meters.AcceptedReadingIs | backend/src/modules/meters/meters.service.ts:201-244 | it then waits for review, in place of the rejected one or as one more; nothing else changes |
| Meters.ReviewsIff | backend/src/modules/meters/meters.service.ts:363-398 | a review is accepted if and only if it comes from staff of the meter's tenant or a superadmin, and sets the status and the reviewer |
| Meters.SubmitIsRefused | backend/src/modules/meters/meters.service.ts:148-216 | each error has its reason |
| Meters.VerifiedIsFound | backend/src/modules/meters/meters.service.ts:201-244 | a reading submitted and then verified is the row every later query of its period finds |
| Meters.EveryOrderlyRunRises | backend/src/modules/meters/meters.service.ts:186-244 | in-order submission, each reading reviewed once before the next, keeps a meter's verified readings from ever falling |
| Meters.VerifyingKeepsRisingIff | backend/src/modules/meters/meters.service.ts:390-398 | verifying a reading of any period keeps the meter's readings rising if and only if it is at least the latest verified reading before its period and at most every verified one after |
| Meters.RisesThroughoutIff | backend/src/modules/meters/meters.service.ts:148-398 | over all runs: the verified readings rise after every step if and only if every reading fits in that way when it is verified |
| Meters.OutOfOrderReadingsFall | backend/src/modules/meters/meters.service.ts:186-198 | two months submitted before either is verified: both pass and the readings fall |
| Meters.EarlierMonthReadingFalls | backend/src/modules/meters/meters.service.ts:186-198 | a month submitted after a later one was verified passes the comparison with the later one, and the readings fall |
| Consumption.BeforeMoves | backend/src/modules/finance/finance.service.ts:292-308 | one period moves the previous value to its verified reading, if it has one |
| Consumption.TotalTelescopes | backend/src/modules/finance/finance.service.ts:308-310 | total consumption is at least last - initial, and equal if and only if no reading is below the one before it |
| Consumption.ClimbsIffRising | backend/src/modules/finance/finance.service.ts:292-309 | comparing neighbours is comparing all readings |
| Consumption.OrderlyRunTelescopes | backend/src/modules/finance/finance.service.ts:277-310 | readings kept in order consume exactly last - initial |
| Consumption.BilledNearTotal | backend/src/modules/finance/finance.service.ts:310-310 | the rounded bills sum to rate times consumption within half a cent a bill |
| Consumption.OrderlyRunBills | backend/src/modules/finance/finance.service.ts:277-310 | in order they sum to rate times (last - initial) within half a cent a bill |
| Consumption.EarlierBillsStay | backend/src/modules/finance/finance.service.ts:277-310 | submitting and reviewing in order changes no bill of a period that has a verified reading |
| Finance.FirstMeter | backend/src/modules/finance/finance.service.ts:263-269 | the first active meter of the unit and kind, if there is one |
| Finance.FindCharge | backend/src/modules/finance/finance.service.ts:315-324 | finds whether the account, tariff and period have a charge |
| Finance.ChargeOne | backend/src/modules/finance/finance.service.ts:252-346 | one unit and tariff: skipped, or charged and counted |
| Finance.ChargeUnits | backend/src/modules/finance/finance.service.ts:245-348 | the two nested loops, with lazily opened accounts |
| Finance.RecalculateBalance | backend/src/modules/finance/finance.service.ts:571-592 | one account's balance becomes payments - charges, rounded to cents; no other changes |
| Finance.RecalculateAll | backend/src/modules/finance/finance.service.ts:350-353 | exactly the affected accounts are recomputed |
| Finance.FinanceService.GenerateCharges | backend/src/modules/finance/finance.service.ts:218-356 | the whole operation with its counts; without active tariffs an error and nothing changes |
| Finance.FinanceService.RecordPayment | backend/src/modules/finance/finance.service.ts:362-401 | a payment is appended and the account's new balance returned |
| Finance.FinanceService.GetOrCreatePersonalAccount | backend/src/modules/finance/personal-account.helper.ts:33-63 | opens an account with a zero balance where there is none |
| Finance.OpensAtZero | backend/src/modules/finance/personal-account.helper.ts:33-63 | an account that exists stays as it is, any other is opened at zero |
| Finance.GenerateChargesExactly | backend/src/modules/finance/finance.service.ts:245-355 | a charge exists afterwards if and only if it did before or unit, tariff and period ask for one; old charges unchanged, new ones right, created + skipped = units * tariffs |
| Finance.GenerateTwiceIsOnce | backend/src/modules/finance/finance.service.ts:315-329 | charging again with the same data creates nothing and changes no table |
| Finance.GenerateKeepsConsistent | backend/src/modules/finance/finance.service.ts:326-353 | charging keeps one charge per account, tariff and period, and every balance exact |
| Finance.PaymentKeepsConsistent | backend/src/modules/finance/finance.service.ts:385-400 | so does recording a payment |
| Finance.PaymentRaisesBalance | backend/src/modules/finance/finance.service.ts:385-400 | a payment raises its account's balance by its amount, within a cent of rounding, and no other |
| Finance.GenerateLeavesOthers | backend/src/modules/finance/finance.service.ts:233-247 | charging a tenant leaves the accounts of others as they were |
| Finance.EveryRunIsConsistent | backend/src/modules/finance/finance.service.ts:218-401 | in every reachable state every stored balance is what recomputing it would give, though only affected accounts are recomputed |
| Finance.EveryBalanceIsPaidLessCharged | backend/src/modules/finance/finance.service.ts:218-592 | in every reachable state an account shows the sum of its payments less the sum of its charges, to half a cent |
| Finance.GenerateLowersBalance | backend/src/modules/finance/finance.service.ts:326-353 | charging lowers every account by what it adds for it, to a cent; an account it opens begins with minus that, to half a cent |
| Finance.PayingDebtClears | backend/src/modules/finance/finance.service.ts:362-592 | in every reachable state, paying exactly the debt an account shows brings it to exactly zero |
| Finance.ChargedPeriodIsCharged | backend/src/modules/finance/finance.service.ts:218-353 | after charging a period, from every reachable state, each unit has a charge, and only one, for each active tariff that asks for something |
| Finance.GeneratesIff | backend/src/modules/finance/finance.service.ts:222-231 | charging succeeds if and only if the tenant has an active tariff |
| Finance.GenerateOpens | backend/src/modules/finance/finance.service.ts:245-247 | afterwards exactly the old accounts and those of the tenant's units exist, the new ones of the tenant |
| Finance.RecordsIff | backend/src/modules/finance/finance.service.ts:362-401 | a payment is recorded if and only if the account exists and staff of its tenant or a superadmin record it |
| Finance.AmountIsRate | backend/src/modules/finance/finance.service.ts:252-255 | a flat tariff asks for its rate, one by area for rate times area to half a cent; one by consumption without a kind for nothing |
| Finance.AmountIsConsumption | backend/src/modules/finance/finance.service.ts:255-312 | a tariff by consumption asks for something if and only if the first active meter of its kind has a verified reading in the period; then for rate times its rise over the latest verified one before, or the initial value, to half a cent |
| Finance.EveryChargeIsCorrect | backend/src/modules/finance/finance.service.ts:252-342 | while the data stays the same every charge has the amount it would have now |
| Finance.ChargesAreBills | backend/src/modules/finance/finance.service.ts:277-342 | the charges of a consumption tariff add up to the bills of the periods charged, in whatever order |
| Finance.ReadingsToCharges | backend/src/modules/finance/finance.service.ts:277-342 | from the meter to the account: readings in order, all charged, are charged rate times (last - initial) within half a cent each |
| MonthlyCharges.EveryRunStaysCorrect | backend/src/modules/finance/finance.service.ts:252-353 | charging, payments and orderly readings in any interleaving: in every reachable state every charge ever made has the amount it would have now, and every balance is exact |
| MonthlyCharges.MonthlyReadingsToCharges | backend/src/modules/finance/finance.service.ts:277-342 | so charges made month by month, between the readings, add up to rate times (last - initial) within half a cent each |
| Csv.ParseUndoesBuild | backend/src/common/csv/csv.helper.ts:14-37 | for every table: a reader of RFC 4180 section 2, after the BOM, gives the rows back, nulls as empty fields and empty rows as one empty field |
| Csv.RoundTripIff | backend/src/common/csv/csv.helper.ts:31-34 | cell by cell if and only if there is a row and no row is empty |
| Csv.BuildIsInjectiveUpToNormal | backend/src/common/csv/csv.helper.ts:14-37 | two tables give one document if and only if they differ only in that |
| Csv.OptionalBreakRoundTripIff | backend/src/common/csv/csv.helper.ts:32-34 | a reader that takes a last line break as optional reads the table back if and only if it has one row or its last row is not one empty field |
| Csv.QuotesExactlyWhenNeeded | backend/src/common/csv/csv.helper.ts:19-24 | a text is written without quotes if and only if it would be read back as itself |
| TokenRefresh.TokenRefresher.ProcessQueue | mobile/src/api/client.ts:27-36 | every queued waiter is settled with the outcome, in order, and the queue is emptied |
| TokenRefresh.TokenRefresher.OnFailure | mobile/src/api/client.ts:53-88 | a failed response is rejected, queued, or starts the refresh |
| TokenRefresh.TokenRefresher.OnRefreshed | mobile/src/api/client.ts:97-122 | success settles the queue and ends the refresh in one step |
| TokenRefresh.TokenRefresher.OnRefreshFailed | mobile/src/api/client.ts:113-115 | failure rejects the queue and goes on refreshing until the tokens are cleared |
| TokenRefresh.TokenRefresher.OnCleared | mobile/src/api/client.ts:115-122 | then the refresh ends and the queue is left as it is |
| TokenRefresh.EveryRunIsOk | mobile/src/api/client.ts:27-122 | in every interleaving: one refresh at a time, each waiter settled once, in order, by the first processing after it joined, no request refreshing twice |
| TokenRefresh.FailureIsHandled | mobile/src/api/client.ts:53-88 | a failure is passed on if and only if it is no 401, is of an authentication endpoint or its request refreshed before; any other waits if a refresh runs and starts one if none does |
| TokenRefresh.RefreshEnds | mobile/src/api/client.ts:111-122 | a refresh that succeeds ends; one that fails goes on until its tokens are cleared |
| TokenRefresh.AnswerSettlesAll | mobile/src/api/client.ts:111-114 | once a refresh answers, everyone who joined before is settled with its outcome |
| TokenRefresh.LeftEmptyIff | mobile/src/api/client.ts:113-122 | a refresh leaves the queue empty if and only if it succeeded or nobody joined since it failed |
| TokenRefresh.WaiterCanBeStranded | mobile/src/api/client.ts:113-122 | a run that leaves a waiter behind |
| HoldButton.HoldConfirmation.PressDown | mobile/src/utils/hold-confirmation.ts:25-41 | a press starts a timer if nothing forbids it |
| HoldButton.HoldConfirmation.Stop | mobile/src/utils/hold-confirmation.ts:19-23 | cancel interrupts the running hold |
| HoldButton.HoldConfirmation.Drop | mobile/src/utils/hold-confirmation.ts:43-43 | dispose does the same, for good |
| HoldButton.HoldConfirmation.OnTimer | mobile/src/utils/hold-confirmation.ts:28-40 | the timer's callback starts a confirmation unless disposed, forbidden or pending |
| HoldButton.HoldConfirmation.OnSettled | mobile/src/utils/hold-confirmation.ts:35-35 | a settled confirmation frees the button |
| HoldButton.EveryRunIsEarned | mobile/src/utils/hold-confirmation.ts:15-44 | for any order of events: each confirmation ends an uninterrupted hold of its own, at least the duration long, they number at most such holds, and at most one is in flight |
| HoldButton.LastingHoldConfirms | mobile/src/utils/hold-confirmation.ts:26-35 | conversely a running hold whose timer fires when due and allowed starts exactly one confirmation |
| HoldButton.PressHoldsIff | mobile/src/utils/hold-confirmation.ts:25-28 | a press begins a hold at that moment if and only if the button is alive and free, the duration makes sense and confirming is allowed |
| HoldButton.LettingGoEnds | mobile/src/utils/hold-confirmation.ts:19-23 | letting go or disposing leaves no timer and counts as an interruption |
| HoldButton.FiringConfirmsIff | mobile/src/utils/hold-confirmation.ts:28-33 | a timer confirms if and only if it is due and confirming is still allowed |
| HoldButton.SettlingFrees | mobile/src/utils/hold-confirmation.ts:35-35 | a settled confirmation leaves none in flight |
| HoldButton.HeldPressConfirms | mobile/src/utils/hold-confirmation.ts:25-35 | from press to confirmation: a press that nothing ends, whatever else happens, confirms once when its time is up |
| HoldButton.ReleasedPressNeverConfirms | mobile/src/utils/hold-confirmation.ts:19-43 | after letting go no timer confirms |
| HoldButton.NewButtonConfirms | mobile/src/utils/hold-confirmation.ts:15-41 | the first press of a new button, held for its time, confirms |
| HoldButton.NothingAfterDispose | mobile/src/utils/hold-confirmation.ts:30-43 | after dispose no confirmation starts, whatever happens |
| HoldButton.NoneWhilePending | mobile/src/utils/hold-confirmation.ts:26-33 | nor while one is in flight |
| PiiCrypto.DecryptUndoesEncrypt | backend/src/common/crypto/pii-crypto.helper.ts:76-132 | decrypting what was encrypted gives it back, through the four-part format; only the empty text becomes null |
| PiiCrypto.EncryptsTo | backend/src/common/crypto/pii-crypto.helper.ts:76-98 | what encrypting yields: the version mark and three parts, nothing for nothing |
| PiiCrypto.DecryptsTo | backend/src/common/crypto/pii-crypto.helper.ts:99-132 | what any stored value decrypts to: itself without the mark, what its three parts open to with it, an error otherwise |
| PiiCrypto.TrimTakesBlanks | backend/src/common/crypto/pii-crypto.helper.ts:142-142 | trimming takes the blanks at both ends, all of them and nothing else |
| PiiCrypto.HashesAgreeIff | backend/src/common/crypto/pii-crypto.helper.ts:137-145 | two numbers have one hash if and only if they agree after trimming, where the digest tells texts apart |
| PiiCrypto.MasksTo | backend/src/common/crypto/pii-crypto.helper.ts:150-171 | six asterisks and the last four characters; what is masked already stays |
| PiiCrypto.MaskIgnoresEncryption | backend/src/common/crypto/pii-crypto.helper.ts:150-171 | an encrypted number is masked as the plain one |
| PiiCrypto.MaskShowsLastFour | backend/src/common/crypto/pii-crypto.helper.ts:150-171 | two masks agree if and only if the last four characters do |
| PiiCrypto.SanitizeAuditMetadata | backend/src/common/crypto/pii-crypto.helper.ts:176-198 | the recursive loop over entries, arrays and nested objects; a decryption error stops it |
| PiiCrypto.EntriesAreSanitized | backend/src/common/crypto/pii-crypto.helper.ts:176-198 | what becomes of every entry: under a key that names an IIN a text gives way to its mask and anything else to six asterisks; objects and the elements of arrays are sanitized alike; the rest stays |
| PiiCrypto.DecimalIs | backend/src/common/crypto/pii-crypto.helper.ts:183-183 | the keys of an array are its indices in decimal |
| PiiCrypto.NamesIinIff | backend/src/common/crypto/pii-crypto.helper.ts:184-184 | a key names an IIN if and only if the three letters stand in it together, in any case |
| PiiCrypto.SanitizedIsClean | backend/src/common/crypto/pii-crypto.helper.ts:176-198 | at every depth of any tree a key containing "iin" holds only null or a text that starts with an asterisk |
| PiiCrypto.SanitizedKeepsTheRest | backend/src/common/crypto/pii-crypto.helper.ts:183-195 | nothing else changes |
| PiiMigration.Migration.EncryptExistingIin | backend/src/common/crypto/pii-migration.helper.ts:19-88 | the migration with its counts, or the error that stopped it, a number that cannot be decrypted or the unique index on `iinHash`, and the table as it then is |
| PiiMigration.MigrateRows | backend/src/common/crypto/pii-migration.helper.ts:42-80 | the loop over the rows, each written back against the unique index |
| PiiMigration.MigrationKeepsNumbers | backend/src/common/crypto/pii-migration.helper.ts:42-80 | even if stopped: everyone's decrypted number is what it was, and every row touched has the hash of that number |
| PiiMigration.TotalIsEncryptedAndSkipped | backend/src/common/crypto/pii-migration.helper.ts:40-82 | total = encrypted + skipped |
| PiiMigration.EncryptedAreUnprotected | backend/src/common/crypto/pii-migration.helper.ts:42-80 | a finished run reports as encrypted exactly the numbers in plain and the encrypted ones without a hash |
| PiiMigration.HashesStayUnique | backend/src/common/crypto/pii-migration.helper.ts:42-80 | whether or not it finishes, no two rows get one hash |
| PiiMigration.FinishesIff | backend/src/common/crypto/pii-migration.helper.ts:42-80 | the loop gets through if and only if every row can be read and the hash it gets is neither left in a row before it nor already in a row after it |
| PiiMigration.SoundTableFinishesIff | backend/src/common/crypto/pii-migration.helper.ts:42-80 | on a table whose hashes are true and unique, partly migrated in whatever mixture, with a digest that tells texts apart: it finishes if and only if every number can be decrypted and no two users have one after trimming |
| PiiMigration.SameNumberStops | backend/src/common/crypto/pii-migration.helper.ts:68-78 | two users entered with one number, up to blanks around it, stop every migration of the table |
| PiiMigration.FinishedRunProtectsAll | backend/src/common/crypto/pii-migration.helper.ts:42-80 | after a run that finishes every number is encrypted and hashed, except that an encrypted empty text has no hash |
| PiiMigration.MigrateTwiceIsOnce | backend/src/common/crypto/pii-migration.helper.ts:48-66 | a second run leaves the table as it is and writes exactly the rows that hold an encrypted empty text without a hash |

## Left out

- Redis failures: the fail-open and fail-closed branches of the throttler, the guard and the codes; Redis is fault-free with one clock.
- `requestOtp` outside test and development, where it only reports that SMS is unavailable.
- The guard's `Retry-After` header, which Redis reports in whole seconds.
- The two reads of a call on a one-time code are one step at the time it began, and so are the deletion of a code and the lockout that follows it.
- Races of other code that reads and writes without a guard or an isolation level: `trigger`, `addUnit`, `recalculateAreas`, `claimOwnership`, `verifyOwnership`, `unlinkOwnership`, `createBooking`, `joinWaitlist`, `leaveWaitlist`, `cancelBooking`, `createMeeting`, `castVote`, `updateMeetingQuorum`, `submitReading`, `reviewReading`, `generateCharges`, `recordPayment`, `recalculateBalance`, `getOrCreatePersonalAccount`, `encryptExistingIin` and the guard's `canActivate`, whose count and expiry are two round trips, are single steps. So are the several queries of one report.
- The branch of `generateCharges` that counts a charge as skipped when another call has just created it.
- `updateResource`, which does not recheck standing bookings: a resource's settings stay fixed.
- Resources without opening hours in the utilization bounds: their bookings may run past midnight.
- Sorting and CSV export of the utilization report, and `getIncomeAggregates`.
- Deleting users, units and tenants, and what the database cascades from that.
- Tariff and meter maintenance beyond `isActive`; between two runs of `generateCharges` all of it may change in any way.
- Unspecified orders of query results: units, tariffs and meters come in table order.
- Floating point: areas, shares, values and money are exact numbers, with the code's roundings.
- Vote signatures, addresses and the closing of a meeting beyond its status; the protocol document.
- Notes, names, photos, notifications, sockets, push messages and PDF files.
- UTF-8 encoding of the CSV document, and `String(field)` of numbers and dates: a cell is its text.
- AES-GCM, HMAC and SHA-256: functions of which only "open undoes seal", "hex has no colon" and "a digest is not empty" is assumed, and where hashes stand for numbers that the digest tells texts apart; keys and their validation.
- A metadata key named `__proto__`, which JavaScript would not copy as an entry.
- What a settled waiter's request does next: it is a new request to the machine.
- A clock that fires a timer after it was cancelled.
