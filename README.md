# Leave bookkeeping and performance tables of the HR portal

This project models the rules of the HR portal's leave and
performance-management handlers, and of its leave page, and proves
properties of them.

- **Leave controller** (`LeaveController`, built on `LeaveModel`, `LeaveTypes`, `Calendar`, `Tables`):
  - A leave request is validated in the handler's order: a caller id; two dates; neither in the past; start not after end; at least one working day.
  - Its working days (Monday to Friday, inclusive) are then charged to the allocation of (user, start year, lower-cased type).
  - That allocation row is created on first use with the type's default quota: sick 15, casual 5, vacation 10, anything else 0.
  - The request is refused when the allocation has too few days left.
  - A manager approves or rejects a pending leave. Rejecting hands the days back, clamping `used` at zero.
  - The team view shows HR every leave, a manager their reports' leaves, and anyone else the leaves of those who share their manager.
  - The balance report gives one row per type, falling back to the default quota.
  - The class `LeaveBook` holds the allocations, leaves and employees tables. Its methods keep three invariants:
    - `Bounded`: `0 <= used <= total`.
    - `DefaultTotals`: every total is its type's quota.
    - `Ledger`: every allocation's `used` equals the working days of the pending and approved leaves charged to it.
  - Under `Ledger`, the zero clamp in a rejection never fires (`LedgerAfterReject`).
- **PMS controller** (`PmsController`):
  - Goals are created at status `draft` and patched field by field by their owner only.
  - Listings are filtered by owner and, optionally, by cycle.
  - Manager reviews are upserted by (employee, reviewer, cycle).
  - Self-assessments are replaced by (user, cycle).
- **Leave page** (`LeavesPage`):
  - The page counts working days itself and looks up the remaining balance among the rows it fetched.
  - It refuses a form with no working day, or one asking for more than a known remaining balance.
  - After a successful post it clears the dates and reason and keeps the type.
  - Lemmas show that these checks agree with the server's:
    - `PageDayCountAgreesWithServer`
    - `ReportGivesServerRemaining`
    - `PageBalanceCheckAgreesWithServer`

Tables without deletes are sequences: the row with id `i` is element `i - 1`, and ids grow with creation time. So "newest first" is decreasing id order. Days are integers counted from 1970-01-01 (a Thursday). `Weekday` is `(d + 4) % 7` with Sunday 0. `YearOf` walks whole Gregorian years from 1970. Wall-clock readings and parsed dates are parameters.

The update of an existing review writes the new review struct through GORM's struct update, which skips zero-valued fields. So an empty `comments` or `status` in the request leaves the stored value in place, while the response echoes the request (`MergeNonZero`, `MergeKeepsKeyAndTakesNewValues`). The performance module implements no goal assignment, acceptance or approval workflow. `UpdateGoal` stores any status string and any progress value as given. The model follows the code in both respects.

## Model

| member | source | states |
|---|---|---|
| Calendar.WorkingDaysAtMostCalendarDays | backend/controllers/leave_controller.go:304-318 | a range never has more working days than calendar days |
| Calendar.WorkingDaysSplit | backend/controllers/leave_controller.go:304-318 | the day count is additive over adjacent ranges |
| Calendar.NextWeekday | backend/controllers/leave_controller.go:310-315 | stepping one day advances the weekday by one, wrapping Saturday to Sunday |
| Calendar.FullWeekHasFiveWorkingDays | backend/controllers/leave_controller.go:304-318 | any seven consecutive days count exactly five working days |
| Calendar.ThreeDaysHoldAWorkingDay | backend/controllers/leave_controller.go:304-318 | any three consecutive days count at least one working day |
| Calendar.NoWorkingDaysOnlyInsideAWeekend | backend/controllers/leave_controller.go:58-63 | a non-empty range with no working day is at most two days long and starts and ends on weekend days |
| LeaveTypes.ToLowerIdempotent | backend/controllers/leave_controller.go:65 | lower-casing the type twice is the same as once |
| LeaveTypes.DefaultAllocation | backend/controllers/leave_controller.go:321-332 | the default quota is positive exactly for sick, casual and vacation in any case |
| LeaveTypes.DefaultAllocationIgnoresCase | backend/controllers/leave_controller.go:321-322 | the quota of a type equals the quota of its lower-cased name |
| LeaveTypes.ReportTypesAreKnownAndLower | backend/controllers/leave_controller.go:385 | the report types are lower case and exactly the types with a default quota |
| Tables.IdsNewestFirst | backend/controllers/leave_controller.go:150-151 | the listed ids are exactly the kept rows, in strictly decreasing (newest first) order |
| Tables.IdsNewestFirstKeepsAll | backend/controllers/leave_controller.go:148-151 | an unfiltered listing has one entry per row |
| Tables.IdsNewestFirstKeepsNone | backend/controllers/leave_controller.go:181-189 | a listing that keeps nothing is empty |
| LeaveModel.BlockedAppend | backend/controllers/leave_controller.go:90-105 | a new leave adds its claim to the days blocked on each allocation |
| LeaveModel.BlockedUpdate | backend/controllers/leave_controller.go:222-228 | replacing one leave changes the blocked days by the difference of the two claims |
| LeaveModel.BlockedCoversClaim | backend/controllers/leave_controller.go:265-280 | every leave's claim is at most the days blocked on its allocation |
| LeaveModel.LedgerAfterApply | backend/controllers/leave_controller.go:90-105 | adding a pending leave and its days to the allocation keeps used equal to blocked days |
| LeaveModel.LedgerAfterApprove | backend/controllers/leave_controller.go:222-228 | approving a pending leave keeps the ledger without touching any allocation |
| LeaveModel.LedgerAfterReject | backend/controllers/leave_controller.go:265-293 | a pending leave's allocation has used at least its days, so the rejection's clamp never fires and the ledger holds afterwards |
| LeaveModel.ValidateRequest | backend/controllers/leave_controller.go:33-63 | a request passes iff it has a caller, two dates, start not in the past and not after end, and a working day; the span then carries the working-day count |
| LeaveModel.WeekendOnlyRequestRejected | backend/controllers/leave_controller.go:58-63 | an ordered, future request covering only weekend days fails with no working days |
| LeaveModel.TeamLeaveIds | backend/controllers/leave_controller.go:141-208 | the team view lists exactly the leaves visible to the caller's role, newest first |
| LeaveModel.HrSeesEveryLeave | backend/controllers/leave_controller.go:148-155 | HR's team view lists every leave |
| LeaveModel.NoManagerNoTeam | backend/controllers/leave_controller.go:172-189 | a non-HR, non-manager caller with no employee row or no manager sees nothing |
| LeaveModel.ColleagueSeesOwnLeaves | backend/controllers/leave_controller.go:191-205 | an employee with a manager sees their own leaves among their colleagues' |
| LeaveModel.BalanceReport | backend/controllers/leave_controller.go:384-410 | three rows in sick, casual, vacation order, with remaining = total - used, taken from the allocation row or the default quota with nothing used |
| LeaveModel.DecidingEvolves | backend/controllers/leave_controller.go:212-301 | approving or rejecting a pending leave changes only that row's status and approver, so the table's history advances one step |
| LeaveModel.EvolvesTransitive | backend/controllers/leave_controller.go:212-301 | the leave table's history (append-only, each row leaves pending at most once) composes across operations |
| LeaveController.WorkingDaysBetween | backend/controllers/leave_controller.go:304-318 | the day-by-day loop counts exactly the working days of the inclusive range |
| LeaveController.CheckLeaveRequest | backend/controllers/leave_controller.go:33-63 | the handler's sequential checks return exactly the validation verdict |
| LeaveController.LeaveBook.constructor | backend/main.go:27-37 | the empty initial store satisfies the bounded, default-total and ledger invariants |
| LeaveController.LeaveBook.GetOrCreateAllocation | backend/controllers/leave_controller.go:334-358 | returns the existing row, or creates and returns one with the default quota and nothing used |
| LeaveController.LeaveBook.CreateLeave | backend/controllers/leave_controller.go:26-115 | validation errors change nothing; too few days left fails with the remaining and requested days; otherwise the days are added to the allocation and a pending leave is appended; the invariants are kept |
| LeaveController.LeaveBook.ApproveLeave | backend/controllers/leave_controller.go:212-240 | only a manager can approve, only a pending leave, recording the approver; the ledger is kept |
| LeaveController.LeaveBook.RejectLeave | backend/controllers/leave_controller.go:244-301 | only a manager rejects a pending leave; its days go back to its allocation clamped at zero; under the ledger exactly its days are returned |
| LeaveController.LeaveBook.ListTeamLeaves | backend/controllers/leave_controller.go:141-208 | the caller's team leaves, exactly the visible ones, newest first |
| LeaveController.LeaveBook.GetMyLeaveBalance | backend/controllers/leave_controller.go:367-412 | a missing caller id is an error; otherwise the balance report of the current year |
| PmsController.PatchIdempotent | backend/controllers/pms_controller.go:74-93 | applying the same partial update twice equals applying it once |
| PmsController.EmptyPatchChangesNothing | backend/controllers/pms_controller.go:74-90 | an update with no field present leaves the goal as it was |
| PmsController.GoalIds | backend/controllers/pms_controller.go:111-118 | the listing holds exactly the owner's goals, of the cycle when given, newest first |
| PmsController.CycleFilterNarrows | backend/controllers/pms_controller.go:112-115 | a cycle filter only removes goals from the owner's listing |
| PmsController.FindReview | backend/controllers/pms_controller.go:213-214 | finds the first review with the key, or reports that none has it |
| PmsController.MergeKeepsKeyAndTakesNewValues | backend/controllers/pms_controller.go:215-217 | an update of a review keeps its key and takes the new values, except that an empty comment or status keeps the old one |
| PmsController.WithoutSlot | backend/controllers/pms_controller.go:175 | after deleting a (user, cycle) slot no row of that slot is left, every remaining row is an original row, and unique slots stay unique |
| PmsController.WithoutSlotIdempotent | backend/controllers/pms_controller.go:175 | deleting the same slot again removes nothing more |
| PmsController.ReplaceSlotKeepsOneRowPerSlot | backend/controllers/pms_controller.go:171-180 | replacing a (user, cycle) slot's rows by one new row keeps slots unique, leaves that row the only one of its slot, and keeps every other slot's rows |
| PmsController.PmsStore.constructor | backend/main.go:27-37 | the empty initial store (freshly migrated goal, review and assessment tables) over a users table with positive ids satisfies the store invariant |
| PmsController.PmsStore.CreateGoal | backend/controllers/pms_controller.go:23-54 | unknown caller and missing cycle or title fail with no change; otherwise a draft goal with progress 0 owned by the caller is appended and appears in the caller's listings |
| PmsController.PmsStore.UpdateGoal | backend/controllers/pms_controller.go:57-103 | only the caller's own goal changes, taking exactly the present fields with any status or progress; otherwise not found and no change |
| PmsController.PmsStore.ListMyGoals | backend/controllers/pms_controller.go:106-123 | exactly the caller's goals, of the cycle when given, newest first |
| PmsController.PmsStore.ManagerListEmployeeGoals | backend/controllers/pms_controller.go:128-148 | an error iff no employee is named; otherwise exactly that employee's goals, of the cycle when given, newest first |
| PmsController.PmsStore.SubmitSelfAssessment | backend/controllers/pms_controller.go:153-182 | a missing cycle fails; otherwise the caller's rows for that cycle are replaced by one new row with a fresh id (one id later when the failed first insert drew one), other rows untouched, and (user, cycle) stays unique |
| PmsController.PmsStore.CreateOrUpdateReview | backend/controllers/pms_controller.go:187-228 | non-managers and invalid input (missing ids, rating outside 1..5) change nothing; otherwise the review with the same key is updated in place or a new one appended; keys stay unique |
| LeavesPage.WorkingDaysBetween | frontend/src/pages/Leaves.jsx:11-27 | 0 unless both dates are readable, 0 when end precedes start, otherwise the inclusive weekday count, never more than the calendar days |
| LeavesPage.PageDayCountAgreesWithServer | frontend/src/pages/Leaves.jsx:77-81 | a form the page counts 0 days for is refused by the server too; for a start not in the past the server accepts iff the page counts a working day, with the same count |
| LeavesPage.RemainingForType | frontend/src/pages/Leaves.jsx:68-71 | the remaining of the first row of the type, or nothing iff no row has it |
| LeavesPage.ReportGivesServerRemaining | frontend/src/pages/Leaves.jsx:68-71 | on a balance report, the page finds for each report type the remaining the server checks against |
| LeavesPage.UnreportedTypeHasNoRemaining | frontend/src/pages/Leaves.jsx:84 | for a type outside the report no row is found and the balance check is skipped |
| LeavesPage.SubmitVerdict | frontend/src/pages/Leaves.jsx:77-89 | the page posts iff there is a working day and, when a balance row of the type exists, the count is within the remaining of the first such row; no working day is refused as such |
| LeavesPage.PageBalanceCheckAgreesWithServer | frontend/src/pages/Leaves.jsx:83-89 | with the balance report of the request's year loaded, the page posts iff the server's balance check would pass |
| LeavesPage.LeavesView.constructor | frontend/src/pages/Leaves.jsx:29-39 | the form starts empty with type sick, no balances and no error |
| LeavesPage.LeavesView.ShowBalances | frontend/src/pages/Leaves.jsx:46-55 | the view shows the fetched balance rows |
| LeavesPage.LeavesView.Submit | frontend/src/pages/Leaves.jsx:73-105 | posts iff the verdict passes, else shows its error; after a successful post dates and reason are cleared and the type kept; a failed post leaves the form |

## Left out

- HTTP binding, JSON, status codes, database errors and transactions: every handler's 500 path is left out. The tables are in memory.
- `time.Now`, `time.Parse` and JavaScript `Date` are left out. Today, the clock reading and the parsed day are parameters. A date the page cannot read is `Unparsable`, and the server sees it as malformed.
- The weekday skew between a UTC-parsed date and its local weekday in the page is left out. Both sides use one weekday function.
- LeaveController.LeaveBook.GetOrCreateAllocation: the default row is created outside the request's transaction, so it persists even when the request then fails. The model keeps that row, and the `Effective` allocation is unchanged.
- LeaveTypes.ToLower: lower-cases ASCII letters only, not the full Unicode case mapping of `strings.ToLower`.
- Ordering by `created_at DESC` is modelled as decreasing id order. Rows created within the same clock tick are not distinguished.
- The team view's join over employees assumes one employee row per user. Duplicate employee rows, which would repeat a leave in the join, are not modelled.
- `ListMyLeaves`, `AdminReport` (a floating-point average) and `MyReviews` are not part of this model. Neither are the other pages and the API client.
- PmsController.PmsStore.UpdateGoal: an update whose patch names no field is modelled as a success that changes nothing. The database's answer to an empty update depends on the goal model's timestamp column, which is not part of this model.
- PmsController.PmsStore.SubmitSelfAssessment: assumes a unique index on (user, cycle) that makes the first insert fail on a duplicate. The delete-then-insert path is taken exactly then.
- PmsController.PmsStore.CreateOrUpdateReview: an unknown reviewer e-mail gives reviewer id 0, as the handler's ignored lookup does. The review is stored under that id.
- The model assumes the `leave_allocations` table exists. The schema setup at backend/main.go:27-37 does not migrate `LeaveAllocation` (backend/models/leave_allocation.go:3). If the schema came only from that call, the allocation lookup would fail with a database error, and CreateLeave, RejectLeave and GetMyLeaveBalance would answer with a server error.
- Every handler is modelled as one atomic step. The source reads an allocation's `used` without a lock and writes back `used + days` (backend/controllers/leave_controller.go:71-92). So two concurrent requests can both pass the balance check, and one of the two blocks of days is lost. Concurrent first requests can also create duplicate allocation rows. Neither interleaving is modelled.
- The employee record declares its manager reference as pointing to an employee row (backend/models/employee.go:10). The team view compares it with the manager's user id (backend/controllers/leave_controller.go:163, 197). `Employee.managerId` follows the controller and holds a user id. The model does not capture the case where the two ids differ.
- LeavesPage.LeavesView.Submit: the reload of leaves and balances after a post is left out. It is I/O, and `ShowBalances` stands for its effect on the balances.
- The page checks the current year's balances, while the server charges the allocation of the start date's year. `PageBalanceCheckAgreesWithServer` therefore assumes the report of the request's year is loaded.
