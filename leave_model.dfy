/**
 * The records of the leave engine and the pure rules over them: request
 * validation, the allocation a (user, year, type) is charged to, the days a
 * leave holds against it, team visibility and the balance report.
 */
module LeaveModel {
  import opened Wrappers
  import opened Calendar
  import opened LeaveTypes
  import opened Tables

  datatype LeaveStatus = Pending | Approved | Rejected

  /** A row of the leaves table. `leaveType` is stored lower-cased. */
  datatype Leave = Leave(
    userId: nat,
    start: Day,
    end: Day,
    leaveType: string,
    reason: string,
    status: LeaveStatus,
    approvedBy: Option<nat>)

  /** A leave request as posted; a date that is not of the form YYYY-MM-DD is None. */
  datatype LeaveRequest = LeaveRequest(
    startDate: Option<Day>,
    endDate: Option<Day>,
    leaveType: string,
    reason: string)

  /** The lookup key of a row of the leave_allocations table. */
  datatype AllocKey = AllocKey(userId: nat, year: int, leaveType: string)

  datatype Allocation = Allocation(total: int, used: int)

  /** A row of the employees table, keyed by its user id; the manager is a user id. */
  datatype Employee = Employee(managerId: Option<nat>)

  datatype LeaveError =
    | MissingUserId
    | InvalidDateFormat
    | DateInPast
    | EndBeforeStart
    | NoWorkingDays
    | InsufficientBalance(remaining: int, requested: nat, leaveType: string)
    | NotManager
    | NotFoundOrNotPending

  /** A validated date range and the working days it costs. */
  datatype Span = Span(start: Day, end: Day, days: nat)

  datatype BalanceRow = BalanceRow(leaveType: string, total: int, used: int, remaining: int)

  /** The allocation a key stands for: its row, or, before the row is created,
      the type's default quota with nothing used. */
  function Effective(allocs: map<AllocKey, Allocation>, k: AllocKey): Allocation
  {
    if k in allocs then allocs[k] else Allocation(DefaultAllocation(k.leaveType), 0)
  }

  /** The allocation a leave is charged to: its user, the year it starts in, its type. */
  function KeyOf(l: Leave): AllocKey
  {
    AllocKey(l.userId, YearOf(l.start), l.leaveType)
  }

  /** The days leave `l` holds against allocation `k`: its working days while it is
      pending or approved, nothing once rejected or when charged elsewhere. */
  function Claim(l: Leave, k: AllocKey): nat
  {
    if KeyOf(l) == k && l.status != Rejected then WorkingDays(l.start, l.end) else 0
  }

  /** The total days the leaves in `ls` hold against allocation `k`. */
  function Blocked(ls: seq<Leave>, k: AllocKey): nat
  {
    if ls == [] then 0 else Blocked(ls[..|ls| - 1], k) + Claim(ls[|ls| - 1], k)
  }

  lemma BlockedAppend(ls: seq<Leave>, l: Leave, k: AllocKey)
    ensures Blocked(ls + [l], k) == Blocked(ls, k) + Claim(l, k)
  {
    assert (ls + [l])[..|ls|] == ls;
  }

  /** Replacing one leave changes what is held by the difference of the two claims. */
  lemma {:induction false} BlockedUpdate(ls: seq<Leave>, i: nat, l: Leave, k: AllocKey)
    requires i < |ls|
    ensures Blocked(ls[i := l], k) == Blocked(ls, k) - Claim(ls[i], k) + Claim(l, k)
  {
    var n := |ls|;
    if i == n - 1 {
      assert ls[i := l][..n - 1] == ls[..n - 1];
    } else {
      assert ls[i := l][..n - 1] == ls[..n - 1][i := l];
      BlockedUpdate(ls[..n - 1], i, l, k);
    }
  }

  /** Each leave's claim is part of what is held. */
  lemma {:induction false} BlockedCoversClaim(ls: seq<Leave>, i: nat, k: AllocKey)
    requires i < |ls|
    ensures Claim(ls[i], k) <= Blocked(ls, k)
  {
    var n := |ls|;
    if i < n - 1 {
      assert ls[..n - 1][i] == ls[i];
      BlockedCoversClaim(ls[..n - 1], i, k);
    }
  }

  /** What every allocation has used is exactly what the pending and approved
      leaves charged to it hold. */
  ghost predicate LedgerHolds(allocs: map<AllocKey, Allocation>, ls: seq<Leave>)
  {
    forall k :: Effective(allocs, k).used == Blocked(ls, k)
  }

  /** Recording a pending leave and adding its working days to its allocation keeps the ledger. */
  lemma LedgerAfterApply(allocs: map<AllocKey, Allocation>, ls: seq<Leave>, l: Leave)
    requires LedgerHolds(allocs, ls) && l.status == Pending
    ensures var a := Effective(allocs, KeyOf(l));
      LedgerHolds(allocs[KeyOf(l) := Allocation(a.total, a.used + WorkingDays(l.start, l.end))], ls + [l])
  {
    forall k ensures Blocked(ls + [l], k) == Blocked(ls, k) + Claim(l, k) {
      BlockedAppend(ls, l, k);
    }
  }

  /** Approving a pending leave keeps the ledger with no allocation touched. */
  lemma LedgerAfterApprove(allocs: map<AllocKey, Allocation>, ls: seq<Leave>, i: nat, approver: nat)
    requires LedgerHolds(allocs, ls) && i < |ls| && ls[i].status == Pending
    ensures LedgerHolds(allocs, ls[i := ls[i].(status := Approved, approvedBy := Some(approver))])
  {
    var m := ls[i].(status := Approved, approvedBy := Some(approver));
    forall k ensures Blocked(ls[i := m], k) == Blocked(ls, k) {
      BlockedUpdate(ls, i, m, k);
    }
  }

  /** Under the ledger a pending leave's allocation has used at least the
      leave's days, so handing them back needs no clamp and keeps the ledger. */
  lemma LedgerAfterReject(allocs: map<AllocKey, Allocation>, ls: seq<Leave>, i: nat, approver: nat)
    requires LedgerHolds(allocs, ls) && i < |ls| && ls[i].status == Pending
    ensures var l := ls[i];
      var a := Effective(allocs, KeyOf(l));
      && a.used >= WorkingDays(l.start, l.end)
      && LedgerHolds(allocs[KeyOf(l) := Allocation(a.total, a.used - WorkingDays(l.start, l.end))],
                     ls[i := l.(status := Rejected, approvedBy := Some(approver))])
  {
    var l := ls[i];
    var m := l.(status := Rejected, approvedBy := Some(approver));
    var a := Effective(allocs, KeyOf(l));
    var allocs' := allocs[KeyOf(l) := Allocation(a.total, a.used - WorkingDays(l.start, l.end))];
    BlockedCoversClaim(ls, i, KeyOf(l));
    forall k ensures Effective(allocs', k).used == Blocked(ls[i := m], k) {
      BlockedUpdate(ls, i, m, k);
    }
  }

  /** The checks CreateLeave makes before it looks at any allocation, in order:
      a caller id, two well-formed dates, neither before today, start not after
      end, and at least one working day. */
  function ValidateRequest(userId: nat, req: LeaveRequest, today: Day): (r: Result<Span, LeaveError>)
    ensures r.Ok? <==>
      && userId != 0
      && req.startDate.Some? && req.endDate.Some?
      && today <= req.startDate.value <= req.endDate.value
      && WorkingDays(req.startDate.value, req.endDate.value) >= 1
    ensures r.Ok? ==>
      r.value == Span(req.startDate.value, req.endDate.value, WorkingDays(req.startDate.value, req.endDate.value))
    ensures r.Ok? ==> r.value.days <= r.value.end - r.value.start + 1
  {
    if userId == 0 then Err(MissingUserId)
    else if req.startDate.None? || req.endDate.None? then Err(InvalidDateFormat)
    else
      var start, end := req.startDate.value, req.endDate.value;
      if start < today || end < today then Err(DateInPast)
      else if end < start then Err(EndBeforeStart)
      else
        var days := WorkingDays(start, end);
        if days <= 0 then Err(NoWorkingDays)
        else
          WorkingDaysAtMostCalendarDays(start, end);
          Ok(Span(start, end, days))
  }

  /** A request whose dates are in order but cover only a weekend fails for
      that reason and for no other. */
  lemma WeekendOnlyRequestRejected(userId: nat, req: LeaveRequest, today: Day)
    requires userId != 0 && req.startDate.Some? && req.endDate.Some?
    requires today <= req.startDate.value <= req.endDate.value
    requires req.endDate.value - req.startDate.value <= 1
    requires !IsWorkingDay(req.startDate.value) && !IsWorkingDay(req.endDate.value)
    ensures ValidateRequest(userId, req, today) == Err(NoWorkingDays)
  {
    var s, e := req.startDate.value, req.endDate.value;
    assert WorkingDays(s, s) == WorkingDays(s, s - 1) + 0;
  }

  predicate IsPending(ls: seq<Leave>, id: nat)
  {
    1 <= id <= |ls| && ls[id - 1].status == Pending
  }

  /** Whether employee `userId` reports to manager `managerId`. */
  predicate ReportsTo(employees: map<nat, Employee>, userId: nat, managerId: nat)
  {
    userId in employees && employees[userId].managerId == Some(managerId)
  }

  /** Whether a caller with `role` sees leave `l` in the team view: HR sees
      every leave, a manager the leaves of those reporting to them, anyone
      else the leaves of those sharing their manager (none without an
      employee row or without a manager). */
  predicate Visible(role: string, caller: nat, employees: map<nat, Employee>, l: Leave)
  {
    if role == "hr" then true
    else if role == "manager" then ReportsTo(employees, l.userId, caller)
    else
      && caller in employees
      && employees[caller].managerId.Some?
      && ReportsTo(employees, l.userId, employees[caller].managerId.value)
  }

  /** The ids of the leaves a caller sees in the team view, newest first. */
  function TeamLeaveIds(role: string, caller: nat, employees: map<nat, Employee>, leaves: seq<Leave>): (ids: seq<nat>)
    ensures forall id :: id in ids <==> 1 <= id <= |leaves| && Visible(role, caller, employees, leaves[id - 1])
    ensures forall i, j :: 0 <= i < j < |ids| ==> ids[i] > ids[j]
  {
    IdsNewestFirst(|leaves|, (id: nat) => 1 <= id <= |leaves| && Visible(role, caller, employees, leaves[id - 1]))
  }

  /** HR sees every leave. */
  lemma HrSeesEveryLeave(caller: nat, employees: map<nat, Employee>, leaves: seq<Leave>)
    ensures |TeamLeaveIds("hr", caller, employees, leaves)| == |leaves|
  {
    IdsNewestFirstKeepsAll(|leaves|, (id: nat) => 1 <= id <= |leaves| && Visible("hr", caller, employees, leaves[id - 1]));
  }

  /** A caller who is neither HR nor a manager, and has no employee row or no
      manager, has no team. */
  lemma NoManagerNoTeam(role: string, caller: nat, employees: map<nat, Employee>, leaves: seq<Leave>)
    requires role != "hr" && role != "manager"
    requires caller !in employees || employees[caller].managerId.None?
    ensures TeamLeaveIds(role, caller, employees, leaves) == []
  {
    IdsNewestFirstKeepsNone(|leaves|, (id: nat) => 1 <= id <= |leaves| && Visible(role, caller, employees, leaves[id - 1]));
  }

  /** A caller who is neither HR nor a manager but has a manager sees their own
      leaves among their colleagues'. */
  lemma ColleagueSeesOwnLeaves(role: string, caller: nat, employees: map<nat, Employee>, leaves: seq<Leave>, id: nat)
    requires role != "hr" && role != "manager"
    requires caller in employees && employees[caller].managerId.Some?
    requires 1 <= id <= |leaves| && leaves[id - 1].userId == caller
    ensures id in TeamLeaveIds(role, caller, employees, leaves)
  {
  }

  /** The balance row of type `t` for a user and year. */
  function ReportRow(allocs: map<AllocKey, Allocation>, userId: nat, year: int, t: string): BalanceRow
  {
    var a := Effective(allocs, AllocKey(userId, year, t));
    BalanceRow(t, a.total, a.used, a.total - a.used)
  }

  /** The balance report of a user for a year: one row per report type. */
  function BalanceReport(allocs: map<AllocKey, Allocation>, userId: nat, year: int): (rows: seq<BalanceRow>)
    ensures |rows| == |ReportTypes| == 3
    ensures forall i :: 0 <= i < 3 ==>
      && rows[i].leaveType == ReportTypes[i]
      && rows[i].remaining == rows[i].total - rows[i].used
    ensures forall i :: 0 <= i < 3 && AllocKey(userId, year, ReportTypes[i]) in allocs ==>
      var a := allocs[AllocKey(userId, year, ReportTypes[i])];
      rows[i].total == a.total && rows[i].used == a.used
    ensures forall i :: 0 <= i < 3 && AllocKey(userId, year, ReportTypes[i]) !in allocs ==>
      rows[i].total == DefaultAllocation(ReportTypes[i]) && rows[i].used == 0
  {
    [ReportRow(allocs, userId, year, "sick"),
     ReportRow(allocs, userId, year, "casual"),
     ReportRow(allocs, userId, year, "vacation")]
  }

  /** A leave never changes once decided, and a pending one changes only by
      becoming approved or rejected, with who decided it. */
  predicate Successor(l: Leave, m: Leave)
  {
    l == m || (l.status == Pending && m.status != Pending && m == l.(status := m.status, approvedBy := m.approvedBy))
  }

  /** The leaves table grows, and every existing row moves at most once out of pending. */
  ghost predicate Evolves(before: seq<Leave>, after: seq<Leave>)
  {
    |before| <= |after| && forall i :: 0 <= i < |before| ==> Successor(before[i], after[i])
  }

  /** Approving or rejecting a pending leave is a step of the table's history. */
  lemma DecidingEvolves(ls: seq<Leave>, i: nat, decision: LeaveStatus, approver: nat)
    requires i < |ls| && ls[i].status == Pending && decision != Pending
    ensures Evolves(ls, ls[i := ls[i].(status := decision, approvedBy := Some(approver))])
  {
  }

  lemma EvolvesTransitive(a: seq<Leave>, b: seq<Leave>, c: seq<Leave>)
    requires Evolves(a, b) && Evolves(b, c)
    ensures Evolves(a, c)
  {
    forall i | 0 <= i < |a| ensures Successor(a[i], c[i]) {
      assert Successor(a[i], b[i]) && Successor(b[i], c[i]);
    }
  }
}
