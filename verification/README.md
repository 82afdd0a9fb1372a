# Verified core of a creator-marketplace backend

The backend serves a video-call marketplace: creators belong to agencies that referred them, users
hold coins, an admin dashboard reports on payments and activity, and several small controllers
protect the API. This project models the parts whose correctness depends on more than one function
or more than one moment, and proves what they keep over every run and every input. Check it with
`dafny verify dfyconfig.toml`.

| file | models |
|---|---|
| `Staff.dfy` | the five collections and the operations that write them, statement by statement |
| `StaffChanges.dfy` | what each of them changes, in the stored fields, and that nothing else changes |
| `Referrals.dfy`, `CoinLedger.dfy`, `Withdrawals.dfy` | what every run of those operations keeps: referral symmetry, coins and ledger, withdrawals |
| `CollectedScan.dfy`, `CollectedSnapshot.dfy`, `CollectedCache.dfy` | the paged payment scan, the scan over a growing list, the single-flight cache around it |
| `DistributedLock.dfy` | the Redis lock with TTL, heartbeats and compare-and-delete |
| `Basics.dfy`, `Decimal.dfy`, `Calendar.dfy`, `IsoText.dfy` | shared definitions, numerals, ECMA-262 day arithmetic, ISO timestamps |
| `IstTime.dfy`, `IsoWeek.dfy`, `Reports.dfy` | IST days and hours, ISO weeks, the reports bucketed by them |
| `MomentsPaging.dfy` | cursors and pages of the moments gallery |
| `Backpressure.dfy`, `CircuitBreaker.dfy`, `RateLimit.dfy` | request queue, circuit breaker, fallback rate limiter |

Each Mongo transaction is one step on the whole database; a read outside a transaction is a step of
its own, so what it returned may be stale when it is used. `Date.now()` is a parameter that never
decreases. Objects and stores that the source updates in place are classes whose methods are tied
to functions on their abstract state; the theorems are about those functions and the runs built of
them.

## Where the code does not do what one might expect

Each of these is proved: the exact condition, and an input that meets it.

- The status that `transferCreatorToAgency` assigns before `ABORT_TX` is never returned; the promise
  rejects instead (`Staff.AbortLosesStatus`, `CoinLedger.AbortHappens`).
- A read-repair of coins writes an absolute balance that may be out of date; when a reward moved in
  between, coins appear or vanish (`CoinLedger.StaleRepair`, `CoinLedger.RepairMintsCoins`).
- The two bulk updates of `patchAgency` are not one transaction, and the reconciler's guard does not
  see a reassignment (`Withdrawals.RunBetweenPatches`, `Withdrawals.PatchBetweenReadAndWrite`,
  with `Withdrawals.PatchTransferBreaks` and `Withdrawals.PatchReconcileBreaks`).
- The weekly login report keys buckets by calendar year and logins by week-numbering year; at the
  turn of a year whole weeks are dropped (`IsoWeek.WeeklyLoginReport`, `IsoWeek.YearEdgeIsDropped`).
- `isValidIstDateKey` accepts dates such as 31 February (`IstTime.BoundsRoundTrip`,
  `IstTime.FebruaryRollsOver`), and `istLookbackCalendarDays` silently stops at 90
  days (`IstTime.LookbackCalendarDays`).
- A heartbeat refreshes the lock without comparing tokens, so one late heartbeat gives two holders
  (`DistributedLock.LateHeartbeat`, `DistributedLock.StaleHeartbeatBreaksLock`).
- A failure while half-open does not always reopen the circuit: it does iff it makes up the threshold
  with the failures that stand, and a quiet window clears those (`CircuitBreaker.HalfOpenFailure`,
  `CircuitBreaker.FailedProbeRun`). For a probe whose failure is the next event, with the shipped
  settings, that is iff some call failed in the minute before the probe started and at least four failed
  in a row since the latest success (`CircuitBreaker.ShippedProbe`, `CircuitBreaker.FailedProbeStays`);
  results of older calls in between decide otherwise (`CircuitBreaker.OtherResultsDecide`).
- A call that began before the trip can close the circuit, even with no probe begun
  (`CircuitBreaker.RecoveryOrigin`, `CircuitBreaker.LateSuccessCloses`).
- The gallery's page limit is not clamped from below: a limit of -1 withholds the last moment and lower
  ones give empty pages (`MomentsPaging.ListMoments`).
- The provider window clamps its start at the epoch, so a range that starts before 1970 can miss
  payments dated before 1970 (`CollectedSnapshot.WindowHoldsRange`, `CollectedSnapshot.EarlyPaymentIsLost`).

## Model

| member | source | states |
|---|---|---|
| `Staff.Store.CheckRequest` | src/modules/admin/creator-transfer.service.ts:61-118 | 400 iff an id is malformed; 200 iff the creator exists with an existing user and the target is an enabled agency with a code; 409 iff the creator lacks a user or that agency lacks a code; 404 otherwise |
| `Staff.AbortLosesStatus` | src/modules/admin/creator-transfer.service.ts:144-158 | the caller's promise rejects without a status iff the referrer that is to give back a granted reward is gone (404 assigned and lost) or an agency short of coins (409 lost) |
| `Staff.Store.RelinkUser` | src/modules/admin/creator-transfer.service.ts:207-239 | the user's link, a pull from the old and from the new referrer and one push, in that order, whatever coincides among the three users |
| `Staff.Store.MoveReward` | src/modules/admin/creator-transfer.service.ts:250-296 | the coins and the two ledger rows move together, and only if both transaction ids are unused |
| `Staff.Store.TransferCreatorToAgency` | src/modules/admin/creator-transfer.service.ts:52-333 | the statement-by-statement transaction ends in the state and outcome of `Transfer`; refusals and aborts change nothing |
| `Staff.Store.RejectReferredUser` | src/modules/agency/agency-portal.controller.ts:91-118 | the three conditional writes of a rejection, and whether the user was unlinked |
| `Staff.Store.ReassignCreators` | src/modules/admin/admin-agency.controller.ts:285-325 | both bulk updates when agency and target qualify (200), otherwise nothing (404) |
| `StaffChanges.RewardMovesIff` | src/modules/admin/creator-transfer.service.ts:133-161 | coins move iff the caller asked for it, the edge is granted, the referrer is an existing agency other than the target with enough coins, and both transaction ids are unused |
| `StaffChanges.DoneIff` | src/modules/admin/creator-transfer.service.ts:138-160 | an accepted transfer aborts iff it was asked to move a granted reward away from a missing referrer or from an agency short of coins, and is otherwise carried out |
| `StaffChanges.UnaskedMovesNothing` | src/modules/admin/creator-transfer.service.ts:139-140 | a transfer not asked to move rewards changes no coins and no ledger row, reports no move and does not abort |
| `StaffChanges.TransferredTxns` | src/modules/admin/creator-transfer.service.ts:256-287 | the ledger gains exactly a completed debit of the old agency and a completed credit of the target if the reward moves, else nothing |
| `StaffChanges.UserChanges` | src/modules/admin/creator-transfer.service.ts:202-292 | of each user only referrer, list and coins change, and coins only by the reported move |
| `StaffChanges.RestChanges` | src/modules/admin/creator-transfer.service.ts:163-302 | of the rest only the creator's agency, the user's edge with its flag kept, and the agency of the user's pending withdrawals, which are the rows counted; settled rows keep theirs |
| `StaffChanges.RejectedUser` | src/modules/agency/agency-portal.controller.ts:92-112 | a rejection that finds its link clears it and marks that user rejected; beyond that only the agency's list loses the user, and nobody's coins or other fields change |
| `StaffChanges.RejectedRest` | src/modules/agency/agency-portal.controller.ts:114-117 | of the rest at most the user's edge that names the agency is deleted |
| `StaffChanges.RejectionGuards` | src/modules/agency/agency-portal.controller.ts:67-84 | a rejection writes only after it read that the agency had referred the user and, later, that the user had no creator profile |
| `StaffChanges.PatchChanges` | src/modules/admin/admin-agency.controller.ts:285-325 | a reassignment happens iff both are agencies and the target is enabled; it moves exactly the creators and the pending withdrawals of the first to the second |
| `Referrals.TransferLinks` | src/modules/admin/creator-transfer.service.ts:163-239 | after a transfer the user's referrer, edge (with code and kept reward flag) and exactly one list entry name the target, and nobody else's link changed |
| `Referrals.TransferredUser` | src/modules/admin/creator-transfer.service.ts:207-292 | every user after a transfer is the relinked user with the reward taken from the old agency and given to the target if it moves; `StaffChanges.RewardMovesIff` says when |
| `Referrals.TransferKeepsSymmetry` | src/modules/admin/creator-transfer.service.ts:82-239 | a transfer keeps the three copies of every referral link in agreement; any outcome but success leaves the database unchanged |
| `Referrals.RejectAllOrNothing` | src/modules/agency/agency-portal.controller.ts:92-117 | in a consistent database the three guards of a rejection hold together or not at all, so a stale rejection writes nothing |
| `Referrals.RejectLinks` | src/modules/agency/agency-portal.controller.ts:92-117 | what a rejection that applies does to every user's referrer and referral list |
| `Referrals.RejectKeepsSymmetry` | src/modules/agency/agency-portal.controller.ts:92-117 | a rejection keeps the agreement, whether or not its read was stale |
| `Referrals.RunKeepsSymmetry` | src/modules/agency/agency-portal.controller.ts:67-118 | every interleaving of transfers with the separate reads and the write of rejections keeps: referrer R iff exactly one entry with R iff the edge names R |
| `CoinLedger.IdsInjective` | src/modules/admin/creator-transfer.service.ts:253-257 | transaction ids of reward moves agree exactly if user, old agency, new agency and key all agree |
| `CoinLedger.LedgerOfMove` | src/modules/admin/creator-transfer.service.ts:264-287 | what a transfer does to every user's completed credits minus debits |
| `CoinLedger.TransferConserves` | src/modules/admin/creator-transfer.service.ts:133-296 | one transfer keeps the total of coins, each user's difference from the ledger, and non-negative balances |
| `CoinLedger.RunConserves` | src/modules/admin/creator-transfer.service.ts:133-296 | the same over every run of transfers, successful or not |
| `CoinLedger.TransferRecords` | src/modules/admin/creator-transfer.service.ts:259-295 | a transfer records exactly the move it makes and makes no recorded move again |
| `CoinLedger.MovedAtMostOnce` | src/modules/admin/creator-transfer.service.ts:253-295 | in every run the reward moves at most once for a given user, old agency, new agency and key, and afterwards it is on record iff it was before or moved once |
| `CoinLedger.LedgerCounts` | src/utils/ledger-coins.ts:29-45 | a ledger row counts for its user iff completed: plus its coins as a credit, minus them as a debit |
| `CoinLedger.RepairFollowsLedger` | src/utils/ledger-coins.ts:44-68 | for any balance: the canonical balance is the ledger's or 0 if that is negative; repaired iff further off than the tolerance; the repair leaves the user exactly on a ledger that is not negative |
| `CoinLedger.RepairChanges` | src/utils/ledger-coins.ts:61-68 | a repair writes one user's coins and nothing else |
| `CoinLedger.ConsistentNeverRepaired` | src/utils/ledger-coins.ts:44-58 | a user whose balance equals the ledger is never repaired after any run of transfers, for every tolerance |
| `CoinLedger.StaleRepair` | src/utils/ledger-coins.ts:20-68 | with the balance read first, the ledger summed later and the write later still: when a repair is triggered, and that it keeps the ledger in step iff the balance did not move after the sum; otherwise the exact number of coins created or lost |
| `CoinLedger.RepairMintsCoins` | src/utils/ledger-coins.ts:60-68 | an instance of `StaleRepair`: a balance read, a reward move, the ledger sum, the move back and the repair create 60 coins |
| `CoinLedger.AbortHappens` | src/modules/admin/creator-transfer.service.ts:150-158 | an agency one coin short: the assigned 409 never reaches the caller |
| `Withdrawals.TransferKeepsFollowing` | src/modules/admin/creator-transfer.service.ts:298-302 | after a transfer every pending withdrawal is unassigned or with its creator's current agency |
| `Withdrawals.PatchKeepsFollowing` | src/modules/admin/admin-agency.controller.ts:317-324 | the same after both bulk updates of a reassignment |
| `Withdrawals.RunBetweenPatches` | src/modules/admin/admin-agency.controller.ts:317-324 | the two updates are not one transaction: after any run of transfers, settlements and reconciler steps between them the rule holds iff just before the second no pending row of the emptied agency belongs to a creator of that agency |
| `Withdrawals.TransferBetweenPatches` | src/modules/admin/admin-agency.controller.ts:317-324 | the case of one transfer in terms of its request: the rule breaks iff it hands a creator with pending withdrawals to the agency being emptied |
| `Withdrawals.PatchTransferBreaks` | src/modules/admin/admin-agency.controller.ts:317-324 | a database and a request with which that happens |
| `Withdrawals.WriteOne` | src/scripts/reconcile-unassigned-withdrawals.ts:59-63 | the guarded write applies exactly to a row still pending and unassigned |
| `Withdrawals.ReconcileRow` | src/scripts/reconcile-unassigned-withdrawals.ts:45-64 | a row is eligible iff its user has a creator with an agency, and only an eligible row is written, outside a dry run |
| `Withdrawals.Reconcile` | src/scripts/reconcile-unassigned-withdrawals.ts:41-65 | the loop writes exactly the eligible rows in order and counts eligible, updated and skipped rows exactly; a dry run writes nothing |
| `Withdrawals.WritesChange` | src/scripts/reconcile-unassigned-withdrawals.ts:41-65 | the writes change only the agency of rows then pending and unassigned, each to an agency planned for it |
| `Withdrawals.RunKeepsFollowing` | src/scripts/reconcile-unassigned-withdrawals.ts:18-65 | transfers and settlements anywhere between the reconciler's two reads and its writes cannot break the rule |
| `Withdrawals.PatchBetweenReadAndWrite` | src/scripts/reconcile-unassigned-withdrawals.ts:36-63 | a reassignment between the reconciler's read and its write breaks the rule iff the write still applies and names the emptied agency |
| `Withdrawals.PatchReconcileBreaks` | src/scripts/reconcile-unassigned-withdrawals.ts:36-63 | a database with which that happens |
| `Withdrawals.ReconcileComplete` | src/scripts/reconcile-unassigned-withdrawals.ts:18-65 | an undisturbed run leaves a pending withdrawal unassigned iff its creator has no agency |
| `CollectedScan.AddAgrees` | src/modules/admin/admin-razorpay-collected.service.ts:162-175 | one turn of the loop keeps ids seen, per-currency sums and counts, insertion order and payment count equal to the set-comprehension specification |
| `CollectedScan.PaymentCounts` | src/modules/admin/admin-razorpay-collected.service.ts:162-175 | one more payment adds its weight iff its id is new, it is captured, and it lies at or after the start and before the end of the range |
| `CollectedScan.AdjacentRangesAdd` | src/modules/admin/admin-razorpay-collected.service.ts:165-167 | the sums of two ranges that meet add up to that of the whole: no payment is shared or lost |
| `CollectedScan.RangeEnds` | src/modules/admin/admin-razorpay-collected.service.ts:131-133 | a range ends where asked or at `asOf`, whichever is earlier |
| `CollectedScan.PageRead` | src/modules/admin/admin-razorpay-collected.service.ts:87-116 | a page is read iff every entry is a payment with an amount from 0 to 2^53 - 1, in order and with the currency in capitals; else it is malformed |
| `CollectedScan.TallyPage` | src/modules/admin/admin-razorpay-collected.service.ts:162-175 | a page extends the agreement to the payments visited so far |
| `CollectedScan.ListBuckets` | src/modules/admin/admin-razorpay-collected.service.ts:180-187 | one bucket for each currency present, in string order, with counts that add up to the tally's |
| `CollectedScan.Report` | src/modules/admin/admin-razorpay-collected.service.ts:180-206 | the reported figures are exact for the visited payments: one bucket for each currency with a relevant payment, in string order, counts adding up, a headline only for at most one currency |
| `CollectedScan.FiguresAreSums` | src/modules/admin/admin-razorpay-collected.service.ts:183-186 | read as numbers, subunits and major amount of every bucket are the sum over first occurrences by id, captured, in the half-open range, and its count is theirs; the headline of a single currency shows the same |
| `CollectedScan.Scan` | src/modules/admin/admin-razorpay-collected.service.ts:128-206 | for every page source and clock: fails exactly with the first limit, malformed page or provider error, else exact totals over all pages, never a partial total |
| `CollectedScan.HowScansEnd` | src/modules/admin/admin-razorpay-collected.service.ts:146-178 | success after n pages when n - 1 of 100 entries or more are followed by a shorter one within both limits; otherwise the limit or the failure of the first request where one occurs |
| `CollectedScan.ScansEnd` | src/modules/admin/admin-razorpay-collected.service.ts:146-178 | every scan ends at such a request |
| `CollectedScan.MajorAmountRoundTrip` | src/modules/admin/admin-razorpay-collected.service.ts:122-126 | the printed major amount parses back to the same subunits, for every integer |
| `CollectedSnapshot.WindowHoldsRange` | src/modules/admin/admin-razorpay-collected.service.ts:139-142 | the widened provider window holds a payment of the range iff the range has no start or the payment is not dated before the epoch |
| `CollectedSnapshot.WindowIsTight` | src/modules/admin/admin-razorpay-collected.service.ts:139-142 | the window is less than 2 s wider than the range at either end, apart from the clamp |
| `CollectedSnapshot.EarlyPaymentIsLost` | src/modules/admin/admin-razorpay-collected.service.ts:139-142 | a relevant payment that the window withholds from the scan |
| `CollectedSnapshot.CoverStretch` | src/modules/admin/admin-razorpay-collected.service.ts:153-175 | a stretch of the grown list that starts no later than the visited prefix ends leaves no gap and counts nothing twice |
| `CollectedSnapshot.ScanIsSnapshot` | src/modules/admin/admin-razorpay-collected.service.ts:146-178 | while the list grows at the front by payments too late for the range, a completed scan collects exactly the sums of the list as it was at the start |
| `CollectedSnapshot.ScanGrowingProvider` | src/modules/admin/admin-razorpay-collected.service.ts:128-206 | the whole scan over a growing provider reports the totals of the first list or fails on a limit, nothing in between |
| `CollectedSnapshot.FiguresAreTotals` | src/modules/admin/admin-razorpay-collected.service.ts:183-186 | read as numbers, the figures of such a total are the sums over the first list |
| `CollectedCache.EffectiveEnd` | src/modules/admin/admin-razorpay-collected.service.ts:393-398 | the end in the cache key is the end the scan computes, never in the future, and less than 30 s behind the clock for an open range |
| `CollectedCache.KeysShared` | src/modules/admin/admin-razorpay-collected.service.ts:393-398 | requests for an open range share a key iff they fall in one 30 s bucket of the clock; for an ended range all do |
| `CollectedCache.IdentityInjective` | src/modules/admin/admin-razorpay-collected.service.ts:272-275 | texts hashed for cache keys agree exactly if mode and all parameters agree; likewise for keys of the latest value |
| `CollectedCache.HitRight` | src/modules/admin/admin-razorpay-collected.service.ts:277-286 | whatever is found under a key may be served for it: with the same end as a hit, with the same requested range as stale |
| `CollectedCache.RunKeepsInvariant` | src/modules/admin/admin-razorpay-collected.service.ts:393-463 | every interleaving of requesters, scans, failures, expiry and other processes keeps the invariant of cache, work, requests and scans on record |
| `CollectedCache.CacheIsUsed` | src/modules/admin/admin-razorpay-collected.service.ts:404-457 | a readable cached value is always used; otherwise the request joins the work in progress for its key or starts one |
| `CollectedCache.WhatRequestsGet` | src/modules/admin/admin-razorpay-collected.service.ts:404-462 | a request is answered with the value stored under its own key or with the outcome of the finished work it joined or started |
| `CollectedCache.HowWorkEnds` | src/modules/admin/admin-razorpay-collected.service.ts:410-455 | work ends with its own scan, with what another process stored under its key, with the latest value of its range, or in failure, and in failure only if no latest value was readable or the lock could not be asked for |
| `CollectedCache.ScanIsStored` | src/modules/admin/admin-razorpay-collected.service.ts:298-310 | a stored scan is under its own key and is the latest value of its range, and no other key changes |
| `CollectedCache.ScanFor` | src/modules/admin/admin-razorpay-collected.service.ts:429-434 | whatever the provider does, a scan that succeeds for a request is exact for what it visited, for the range of the request's cache key, and, if the provider was steady, the total of the provider's list when it began |
| `CollectedCache.RunGuarantees` | src/modules/admin/admin-razorpay-collected.service.ts:393-463 | at most one piece of work in flight for each key; every answer is exact, for the effective range it states, for what some recorded scan of the same requested range visited, and is the total of the provider's list at the start of that scan if it was steady; the range is the request's own unless stale; `inProcess` is empty once all are answered |
| `DistributedLock.MutualExclusion` | src/utils/distributed-lock.ts:53-98 | in every run whose heartbeats arrive before their own key expires, at most one attempt holds the lock, the stored token is the holder's, and nothing is sent after the delete |
| `DistributedLock.LateHeartbeat` | src/utils/distributed-lock.ts:70-83 | a heartbeat step keeps the lock exclusive iff nobody else holds it, since the refresh does not compare tokens |
| `DistributedLock.OnlyOwnerDeletes` | src/utils/distributed-lock.ts:5-10 | in every state a live key disappears only through the delete of the attempt whose token it stores |
| `DistributedLock.OnlyAcquisitionRevives` | src/utils/distributed-lock.ts:57-72 | a key that is gone comes back only by an acquisition, never by a heartbeat |
| `DistributedLock.KeyAfterCommand` | src/utils/distributed-lock.ts:57-72 | an acquisition succeeds iff the key is not live; it, and a heartbeat on a live key, leave the attempt's token for exactly its TTL |
| `DistributedLock.OverdueHappens` | src/utils/distributed-lock.ts:57-72 | a run that reaches a heartbeat under way when its key has just expired |
| `DistributedLock.StaleHeartbeatBreaksLock` | src/utils/distributed-lock.ts:70-72 | from there one acquisition and the stale heartbeat leave two holders |
| `DistributedLock.RoomForOneMissed` | src/utils/distributed-lock.ts:69 | a bound on delays under which one missed heartbeat does no harm exists iff the TTL exceeds 2 s; from 3 s on it may be a whole interval |
| `DistributedLock.PunctualIsOnTime` | src/utils/distributed-lock.ts:68-83 | a heartbeat run within such a bound of when it was due, with at most the one before it lost, finds its own key not yet expired |
| `DistributedLock.ScheduleIsTimely` | src/utils/distributed-lock.ts:53-98 | in every run where heartbeats fire an interval apart from the acquisition, are run within the bound if at all, and no two in a row are lost, all heartbeats are timely |
| `DistributedLock.ScheduleExcludes` | src/utils/distributed-lock.ts:53-98 | hence in every such run at most one attempt holds the lock |
| `Calendar.YearLength` | src/utils/ist-time.ts:40 | consecutive years start one Gregorian year's length apart (section 21.4.1 of ECMA-262) |
| `Calendar.GregorianMonths` | src/utils/ist-time.ts:40 | day 0 is a Thursday in 1970 and months have their Gregorian lengths |
| `Calendar.CivilThenDay` | src/utils/ist-time.ts:40 | day number to civil date and back, for every day |
| `Calendar.DayThenCivil` | src/utils/ist-time.ts:40 | civil date to day number and back, for every real date |
| `Calendar.CivilOrder` | src/utils/ist-time.ts:40 | day numbers and civil dates are ordered alike |
| `IstTime.KeyInUtc` | src/utils/ist-time.ts:4-22 | the zone is UTC+5:30: a key is that of the UTC day, and from 18:30 UTC on that of the next |
| `IstTime.BoundsInUtc` | src/utils/ist-time.ts:35-43 | a day begins 5 h 30 min before its UTC midnight and is 24 hours long |
| `IstTime.HourInUtc` | src/utils/ist-time.ts:86-102 | hour key and start of hour are those of a clock 19 800 s ahead of UTC |
| `IstTime.QuarterPastMidnight` | src/utils/ist-time.ts:20-22 | 18:45 UTC belongs to the next day |
| `IstTime.ParseDayOfText` | src/utils/ist-time.ts:35-43 | any three numerals: zeros refused, years 1 to 99 read as 1901 to 1999, months and days out of range roll over |
| `IstTime.ValidKeyIff` | src/utils/ist-time.ts:145-155 | valid keys are four, two and two digits between dashes, none of the numbers zero |
| `IstTime.DaysPartitionTime` | src/utils/ist-time.ts:20-43 | every instant lies in the bounds of its own key and of no other day's, and the start of a day has the day's key |
| `IstTime.BoundsRoundTrip` | src/utils/ist-time.ts:35-43 | the key of a key's start is the key itself iff the date is real; `isValidIstDateKey` accepts the others too |
| `IstTime.FebruaryRollsOver` | src/utils/ist-time.ts:147-155 | 31 February of any year is accepted and means 2 March of a leap year, 3 March of any other |
| `IstTime.KeyOrder` | src/utils/ist-time.ts:62-65 | string order of keys is the order of days, and keys are injective |
| `IstTime.AddDaysShifts` | src/utils/ist-time.ts:56-59 | adding days moves key and start by exactly that many days over all month, year and leap boundaries, and is additive |
| `IstTime.UpToLastDay` | src/utils/ist-time.ts:65 | a day's key is not after a valid end key exactly up to a last day: the end key's own, or the last real date before it within its year |
| `IstTime.IterDateKeys` | src/utils/ist-time.ts:62-70 | any first key: an error iff it is unreadable and not after the end key, nothing if it is after it, else the key as given and exactly the days after it up to the last day; between real dates, exactly the consecutive days |
| `IstTime.DateKeysLastNDays` | src/utils/ist-time.ts:73-78 | exactly min(90, max(1, n)) consecutive days ending today |
| `IstTime.LookbackCalendarDays` | src/utils/ist-time.ts:105-112 | the window starts at the start of the first of the last min(90, max(1, days)) days: the cap of 90 is inherited |
| `IstTime.StartOfHourIsHourStart` | src/utils/ist-time.ts:86-102 | rebuilding an instant from its hour key gives the start of the IST hour that holds it |
| `IstTime.HourKeyIff` | src/utils/ist-time.ts:86-93 | two instants share an hour key iff they share an IST hour |
| `IstTime.IterHourBuckets` | src/utils/ist-time.ts:114-132 | exactly the consecutive IST hours from the one of `from` to the one of `to`, each with its own key and label |
| `IsoWeek.WeekStartIsMonday` | src/modules/admin/admin-analytics.service.ts:121-157 | for every date, the start computed from week-year and week number is the Monday of its week, and the number is in 1..53 |
| `IsoWeek.WeekNamesWeek` | src/modules/admin/admin-analytics.service.ts:151-157 | week-year and week number agree on two dates iff they share a week |
| `IsoWeek.LabelText` | src/modules/admin/admin-analytics.service.ts:117-119 | the form of a week label, with a two-digit week |
| `IsoWeek.IterWeeklyBuckets` | src/modules/admin/admin-analytics.service.ts:131-149 | for every range at most twelve buckets with distinct keys, each of the first sampled day with its key, in order of the samples, and the last ones if there are more; with fewer than twelve every sampled day's key is there |
| `IsoWeek.BucketMatchesWeek` | src/modules/admin/admin-analytics.service.ts:136-143 | a bucket has the key and the start of its sampled day's week iff that day's calendar year is the week-numbering year |
| `IsoWeek.TwelveBuckets` | src/modules/admin/admin-analytics.service.ts:131-149 | over the weekly window all twelve samples survive under distinct keys |
| `IsoWeek.WeeklyLoginReport` | src/modules/admin/admin-analytics.service.ts:106-149 | a login in the weekly window is shown iff the calendar year of the day sampled from its week is the week-numbering year |
| `IsoWeek.MisfiledIsDropped` | src/modules/admin/admin-analytics.service.ts:131-149 | a report whose window begins with a day whose two years differ shows none of that day's logins |
| `IsoWeek.YearEdgeIsMisfiled` | src/modules/admin/admin-analytics.service.ts:131-149 | 30 December 2024, in week 1 of 2025, is filed under 2024 |
| `IsoWeek.YearEdgeIsDropped` | src/modules/admin/admin-analytics.service.ts:131-149 | the logins of 30 December 2024 are in no point of the report of 17 March 2025 |
| `Reports.BucketsSplitTotal` | src/modules/admin/admin-dashboard.service.ts:249-262 | distinct keys that cover all rows split a total without loss or overlap |
| `Reports.GroupIsFilter` | src/modules/admin/admin-dashboard.service.ts:249-281 | grouping by key agrees with filtering by any test that holds of the same rows |
| `Reports.FlowCounts` | src/modules/admin/admin-dashboard.service.ts:423-426 | a coin row adds its coins as a completed credit in the half-open range, takes them off as a debit, and else adds nothing |
| `Reports.SignupCounts` | src/modules/admin/admin-analytics.service.ts:279-282 | a signup counts iff it is in the range, both ends included |
| `Reports.RechargePrice` | src/modules/admin/admin-dashboard.service.ts:207-216 | a positive stored price is what a recharge adds, otherwise a positive amount from its description, otherwise nothing |
| `Reports.RechargeCounts` | src/modules/admin/admin-dashboard.service.ts:272-281 | a recharge counts for the IST day that holds its completion, told in UTC milliseconds, and for no other |
| `Reports.WalletFlowSeries` | src/modules/admin/admin-dashboard.service.ts:339-383 | one net figure for each IST day of the range, each the net of its own day, adding up to the overview's direct credits minus debits |
| `Reports.DailySignups` | src/modules/admin/admin-analytics.service.ts:274-298 | daily points count their own day and add up to the rows matched |
| `Reports.InstantHasBucket` | src/utils/ist-time.ts:114-132 | every instant of the range has exactly one generated hour bucket despite the half-hour offset |
| `Reports.HourlySignups` | src/modules/admin/admin-analytics.service.ts:274-298 | hourly points count their own hour and add up to the rows matched |
| `Reports.KeyIsDay` | src/modules/admin/admin-dashboard.service.ts:251 | a key in range belongs to no instant outside its day, for rows of any later date |
| `Reports.DayTotal` | src/modules/admin/admin-dashboard.service.ts:237-281 | grouping the rows since the first day by key gives each day the total of filtering by its bounds |
| `Reports.SumRechargeInrForDay` | src/modules/admin/admin-dashboard.service.ts:272-281 | the sum over the rows within the day's bounds; an error for a key without bounds |
| `Reports.RechargeDailySeries` | src/modules/admin/admin-dashboard.service.ts:237-270 | each point equals amount, coins and count of filtering by that day's bounds, as the other two functions report them |
| `Reports.RechargeTransactionsForDay` | src/modules/admin/admin-dashboard.service.ts:283-337 | the same amount, coins and count, in whatever order the query lists the rows; an error for an invalid key |
| `IsoText.IsoRoundTrip` | src/modules/admin/admin-moments-management.controller.ts:52-62 | an instant printed by `toISOString` reads back to the millisecond and holds no separator |
| `IsoText.TextSlices` | src/modules/admin/admin-moments-management.controller.ts:52 | which characters of a timestamp show which field |
| `IsoText.ReadsOnlyItsText` | src/modules/admin/admin-moments-management.controller.ts:62-65 | only the timestamp of an instant reads as that instant |
| `MomentsPaging.CursorRoundTrip` | src/modules/admin/admin-moments-management.controller.ts:51-67 | decoding undoes encoding, and the cursor is the timestamp, an underscore and the id |
| `MomentsPaging.DecodedCursor` | src/modules/admin/admin-moments-management.controller.ts:55-67 | encoding undoes decoding: an accepted cursor is that of exactly one moment |
| `MomentsPaging.PageLimits` | src/modules/admin/admin-moments-management.controller.ts:76 | the limit is 30 when absent or zero, at most 100, and otherwise as asked |
| `MomentsPaging.ListMoments` | src/modules/admin/admin-moments-management.controller.ts:76-183 | refuses exactly the cursors that do not decode; for a limit of at least 1 a page in order that skips nothing above its end, with a next cursor iff more follows, which decodes to the page's last moment; for -1 all but the very last moment, and for lower limits an empty page |
| `MomentsPaging.ExchangeIsSession` | src/modules/admin/admin-moments-management.controller.ts:98-183 | answers chained by their own next cursors are never refused and form a session, whatever the limits of at least 1 |
| `MomentsPaging.SessionDescends` | src/modules/admin/admin-moments-management.controller.ts:104-183 | over a whole session, with inserts and deletes between pages, the order is strictly descending on creation time and id: newest first, and the greater id first within an instant |
| `MomentsPaging.PresentIsReturned` | src/modules/admin/admin-moments-management.controller.ts:104-183 | a moment present from some page on and below that page's cursor is returned |
| `MomentsPaging.SessionExact` | src/modules/admin/admin-moments-management.controller.ts:104-183 | no moment is returned twice, each matched when its page was read, and every moment present as above is returned |
| `Backpressure.RequestQueue.Acquire` | src/middlewares/request-queue.middleware.ts:60-88 | admits at once below the limit or on a bypass path, else queues at the end |
| `Backpressure.RequestQueue.Release` | src/middlewares/request-queue.middleware.ts:90-100 | frees a slot and hands it to the first waiter, if any |
| `Backpressure.RequestQueue.Timeout` | src/middlewares/request-queue.middleware.ts:69-77 | takes exactly that waiter out of the queue and counts a rejection |
| `Backpressure.SurvivorsGiveUp` | src/middlewares/request-queue.middleware.ts:69-77 | a timeout takes one request out of the order of service and changes nothing else |
| `Backpressure.RunKeepsInvariant` | src/middlewares/request-queue.middleware.ts:60-139 | every arrival, response event and timeout keeps order, slots and conservation |
| `Backpressure.QueueGuarantees` | src/middlewares/request-queue.middleware.ts:60-139 | in every run: slots in use within the limit, nobody waits while one is free, arrivals = admitted + waiting + rejected, and survivors are served in order of arrival |
| `Backpressure.NoOvertaking` | src/middlewares/request-queue.middleware.ts:63-99 | whoever arrived before an admitted request and did not give up was admitted earlier |
| `Backpressure.WaiterLeaves` | src/middlewares/request-queue.middleware.ts:90-100 | a waiter with k requests before it stops waiting by the time k + 1 slots have been freed, whatever else happens |
| `CircuitBreaker.CircuitBreaker.constructor` | src/utils/circuit-breaker.ts:25-38 | closed and empty; no option is ever 0, absent and zero ones are the shipped settings and the others the caller's |
| `CircuitBreaker.CircuitBreaker.UpdateState` | src/utils/circuit-breaker.ts:68-84 | clears the count after a quiet window and turns half-open after the reset time |
| `CircuitBreaker.CircuitBreaker.Begin` | src/utils/circuit-breaker.ts:43-56 | throws exactly while open and before `nextAttempt` at both readings of the clock |
| `CircuitBreaker.CircuitBreaker.OnSuccess` | src/utils/circuit-breaker.ts:86-96 | closes only from half-open and clears the count |
| `CircuitBreaker.CircuitBreaker.OnFailure` | src/utils/circuit-breaker.ts:98-111 | counts, and opens at the threshold unless already open |
| `CircuitBreaker.BreakerGuarantees` | src/utils/circuit-breaker.ts:43-111 | every run's log, with any calls in flight, is legal: nothing begins while open or within the reset time of a trip, refusals only within it, trips only on `threshold` failures in a row and a reset time apart, recovery only from half-open; closed means below the threshold iff the threshold is at least 1 |
| `CircuitBreaker.QuietAfterTrip` | src/utils/circuit-breaker.ts:46-52 | pairwise: anything that begins or trips after a trip does so at least the reset time later |
| `CircuitBreaker.EveryFailure` | src/utils/circuit-breaker.ts:98-111 | over every run and for every call in flight: its failure opens the circuit iff it makes up the threshold with the failures that stand since the latest success and the latest quiet window; else the mode stays |
| `CircuitBreaker.HalfOpenFailure` | src/utils/circuit-breaker.ts:98-111 | so it is for every failure while half-open, whatever else has begun or ended since the probing |
| `CircuitBreaker.FailedProbe` | src/utils/circuit-breaker.ts:68-111 | a probe whose failure is the next event reopens the circuit iff one failure meets the threshold or the count still stood when the probe started |
| `CircuitBreaker.ProbeReopens` | src/utils/circuit-breaker.ts:68-111 | over every run, for a probe begun on the open circuit whose failure is the next event: it reopens iff the threshold is at most 1, or the latest failure is at most a window before the probe started and enough failures stand |
| `CircuitBreaker.ShippedProbe` | src/utils/circuit-breaker.ts:136-146 | the same case with the shipped settings, over every run whose failing calls read one time: iff some call failed in the minute before the probe started and at least four in a row since the latest success; without a failure while open, only in the very millisecond the reset time ends |
| `CircuitBreaker.FailedProbeStays` | src/utils/circuit-breaker.ts:68-111 | with the shipped settings, a probe ten seconds after the reset time that fails and leaves the circuit half-open |
| `CircuitBreaker.FailedProbeRun` | src/utils/circuit-breaker.ts:43-111 | a whole run that ends so |
| `CircuitBreaker.OtherResultsDecide` | src/utils/circuit-breaker.ts:86-111 | results of older calls while the probe is in flight change what its failure does, in both directions |
| `CircuitBreaker.CloserBegan` | src/utils/circuit-breaker.ts:86-96 | the call whose success closes the circuit began after the probing iff it was not in flight when the probing started |
| `CircuitBreaker.ClosedWithoutProbe` | src/utils/circuit-breaker.ts:79-96 | no call at all began between probing and recovery iff `getState` started the probing and only failures of older calls came before the success |
| `CircuitBreaker.RecoveryOrigin` | src/utils/circuit-breaker.ts:43-118 | both hold of every recovery in every run |
| `CircuitBreaker.LateSuccessCloses` | src/utils/circuit-breaker.ts:86-91 | a run in which a call begun before the trip closes the circuit with no probe begun |
| `RateLimit.Limiter.constructor` | src/utils/rate-limit.service.ts:22-28 | the fallback limit is never 0, is 1 below a configured 2 and otherwise half of the configured limit, rounded down |
| `RateLimit.Limiter.Check` | src/utils/rate-limit.service.ts:72-110 | opens a window or counts in the open one, and answers by the count |
| `RateLimit.WindowOfCall` | src/utils/rate-limit.service.ts:84-107 | a call before the end of its user's window stays in it; any other opens one of the configured length and is allowed |
| `RateLimit.RemainingIsExact` | src/utils/rate-limit.service.ts:89-109 | `remaining` is exactly how many of the next calls before the window ends will be allowed, and `resetAt` is that end |
| `RateLimit.Limiter.Cleanup` | src/utils/rate-limit.service.ts:44-56 | removes exactly the ended windows and counts them |
| `RateLimit.CleanupsAreInvisible` | src/utils/rate-limit.service.ts:44-110 | in every run each user is told what it would be told alone: cleanups and other users, inserted anywhere, change no reply |
| `RateLimit.WindowLimit` | src/utils/rate-limit.service.ts:72-110 | each window, told by its end, allows at most `limit` calls, for every positive window |
| `RateLimit.NoLimitWithoutWindow` | src/utils/rate-limit.service.ts:84-95 | for a window of 0 or less any number of calls is allowed |
| `RateLimit.FewerThanTwiceTheLimit` | src/utils/rate-limit.service.ts:72-110 | any half-open interval of one window length holds at most 2 * limit - 1 allowed calls of a user |
| `RateLimit.BoundIsReached` | src/utils/rate-limit.service.ts:72-110 | for every limit and every window of 2 ms or more that bound is reached |

## Left out

- Express routing, authentication, CORS, webhooks, logging, metrics, feature flags and configuration
  parsing; billing, presence, referral-code and starter services, whose code the modelled files only call.
- Mongo and Redis drivers and their retries: `find`, `sort`, `limit` and `aggregate` are given by what
  they return (`IsFind`, `IsListing`, `IsJoin`, `Filter`, a permutation of the matching rows).
- HTTP calls and backoff of `fetchRazorpayPaymentsPage`, and the all-time projection of collected
  amounts; the bound of 20 polls and the cache TTLs, which the cache model leaves open (a poll may
  stop at any time, an entry may expire at any time).
- SHA-256 in cache keys: keys are the texts before hashing, that is, no collisions are assumed.
- `localeCompare` on currency codes and date keys is modelled as code-unit order; `toUpperCase` only
  changes ASCII letters; trimming of request strings is taken as done.
- ObjectIds only in their 24-digit lower-case hexadecimal form; other forms that Mongoose accepts are
  treated as invalid.
- The branch of a transfer that catches a duplicate-key error on creating the edge: it cannot be
  taken inside one atomic step. Creation times of referral entries, display fields, passwords and the
  `agencyDisabled` flag that `patchAgency` also saves are not modelled; an absent `agencyDisabled` is
  taken as false.
- JavaScript numbers in reports are reals without rounding; milliseconds and coins are integers.
- IST keys are modelled for the fixed offset +5:30; the main results are for the years 1000 to 9998,
  where keys have four-digit years. `Number(part)` only reads plain decimal numerals. Day bounds use
  `Date.UTC` without its limit of 8.64e15 ms.
- The wallet-flow series without a selected range, monthly buckets, and daily login buckets: the same
  bucketing argument again.
- The order-only cursor of `browseMomentsForAdminHandler`, and the redis wrappers of
  `redis-circuit-breaker.ts`.
- MomentsPaging.ListMoments: fractional limits are not modelled; a negative argument of Mongo's `limit` is
  taken as one batch of that size. `new Date(text)` only reads full UTC timestamps.
- IsoText.IsoRoundTrip: for the years 0 to 9999, where `toISOString` prints four-digit years.
- DistributedLock.MutualExclusion: holding is judged at Redis; how long the protected task takes to
  notice a lost lock is not modelled. The attempts, Redis and the clock are one state machine on
  values, since their steps interleave across processes.
- CollectedCache.RunGuarantees: the asynchronous turns of `dashboardRazorpayCollectedAmount` are steps
  on values, not a class, since they interleave; for a fixed provider mode.
- IstTime.IterDateKeys: requires an end key of the form `YYYY-MM-DD` with non-zero parts in the years 1000
  to 9998, and a first key in that range if it can be read; with other end keys the loop need not end.
- CollectedSnapshot.ScanGrowingProvider: requires the stated growth (new payments at the front, created
  at or after the end of the range) and no payment dated before the epoch unless the range has no start.
- Which paths and methods bypass the request queue (`shouldBypass`): whether a request does is a parameter.
- Backpressure.QueueGuarantees: a connection that closes before its request is admitted has no release
  attached yet and so keeps its slot; the model only counts slots, it does not bound such leaks.
- CircuitBreaker.BreakerGuarantees: runs have no manual `reset`, which forgets every promise by design.
- CircuitBreaker.ShippedProbe: for runs in which both clock readings of a failing call agree; where they
  differ, `CircuitBreaker.ProbeReopens` gives the condition.
- DistributedLock.ScheduleExcludes: the delay of the acquisition's reply counts towards the latency of the
  first heartbeats.
- RateLimit.FewerThanTwiceTheLimit: the in-memory fallback only; the Redis counter in front of it is not
  modelled.
- IsoWeek.WeekStartIsMonday: the years 0 to 99 stand for themselves, where `Date.UTC` would read 1900 to 1999.
