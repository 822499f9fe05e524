/**
 * The leave handlers over in-memory tables: applying for leave blocks the
 * days on the allocation at once, a manager then approves (the days stay
 * blocked) or rejects (the days are handed back), and the balance and team
 * views read the tables.
 */
module LeaveController {
  import opened Wrappers
  import opened Calendar
  import opened LeaveTypes
  import opened LeaveModel

  /** Writing a key twice leaves only the second value. */
  lemma OverwriteAllocation(m: map<AllocKey, Allocation>, k: AllocKey, first: Allocation, second: Allocation)
    ensures m[k := first][k := second] == m[k := second]
  {
  }

  /** Counts the Monday-to-Friday days of [start, end] by walking the range a day at a time. */
  method WorkingDaysBetween(start: Day, end: Day) returns (d: nat)
    ensures d == WorkingDays(start, end)
  {
    if end < start {
      return 0;
    }
    d := 0;
    var cur := start;
    while cur <= end
      invariant start <= cur <= end + 1
      invariant d == WorkingDays(start, cur - 1)
      decreases end - cur
    {
      var wd := Weekday(cur);
      if wd != Saturday && wd != Sunday {
        d := d + 1;
      }
      cur := cur + 1;
    }
  }

  /** The checks CreateLeave makes, in order, before it touches any table. */
  method CheckLeaveRequest(userId: nat, req: LeaveRequest, today: Day) returns (v: Result<Span, LeaveError>)
    ensures v == ValidateRequest(userId, req, today)
  {
    if userId == 0 {
      return Err(MissingUserId);
    }
    if req.startDate.None? || req.endDate.None? {
      return Err(InvalidDateFormat);
    }
    var start, end := req.startDate.value, req.endDate.value;
    if start < today || end < today {
      return Err(DateInPast);
    }
    if end < start {
      return Err(EndBeforeStart);
    }
    var days := WorkingDaysBetween(start, end);
    if days <= 0 {
      return Err(NoWorkingDays);
    }
    return Ok(Span(start, end, days));
  }

  class LeaveBook {
    /** The leave_allocations table, one row per (user, year, type). */
    var allocations: map<AllocKey, Allocation>
    /** The leaves table: the leave with id `i` is `leaves[i - 1]`. */
    var leaves: seq<Leave>
    /** The employees table, read by the team view. */
    var employees: map<nat, Employee>

    /** Every allocation has used a non-negative number of days, no more than its total. */
    ghost predicate Bounded()
      reads this
    {
      forall k :: k in allocations ==> 0 <= allocations[k].used <= allocations[k].total
    }

    /** Every allocation's total is its type's default quota. */
    ghost predicate DefaultTotals()
      reads this
    {
      forall k :: k in allocations ==> allocations[k].total == DefaultAllocation(k.leaveType)
    }

    /** What every allocation has used is exactly what the pending and approved
        leaves charged to it hold. */
    ghost predicate Ledger()
      reads this
    {
      LedgerHolds(allocations, leaves)
    }

    constructor (staff: map<nat, Employee>)
      ensures allocations == map[] && leaves == [] && employees == staff
      ensures Bounded() && DefaultTotals() && Ledger()
    {
      allocations := map[];
      leaves := [];
      employees := staff;
    }

    /** Looks up the allocation of `key`, first creating it with the type's
        default total and nothing used when it does not exist. */
    method GetOrCreateAllocation(key: AllocKey) returns (a: Allocation)
      modifies this`allocations
      ensures a == Effective(old(allocations), key)
      ensures allocations == old(allocations)[key := a]
    {
      if key in allocations {
        a := allocations[key];
      } else {
        a := Allocation(DefaultAllocation(key.leaveType), 0);
        allocations := allocations[key := a];
      }
    }

    /** Applies for leave: validates the request, then blocks its working days
        on the allocation of (user, start year, lower-cased type) and records a
        pending leave, or fails when the allocation has too few days left. */
    method CreateLeave(userId: nat, req: LeaveRequest, today: Day) returns (r: Result<nat, LeaveError>)
      modifies this`allocations, this`leaves
      ensures ValidateRequest(userId, req, today).Err? ==>
        && r == Err(ValidateRequest(userId, req, today).error)
        && allocations == old(allocations) && leaves == old(leaves)
      ensures ValidateRequest(userId, req, today).Ok? ==>
        var span := ValidateRequest(userId, req, today).value;
        var key := AllocKey(userId, YearOf(span.start), ToLower(req.leaveType));
        var a := Effective(old(allocations), key);
        if span.days > a.total - a.used then
          && r == Err(InsufficientBalance(a.total - a.used, span.days, key.leaveType))
          && leaves == old(leaves)
          && allocations == old(allocations)[key := a]
        else
          && r == Ok(|old(leaves)| + 1)
          && leaves == old(leaves) + [Leave(userId, span.start, span.end, key.leaveType, req.reason, Pending, None)]
          && allocations == old(allocations)[key := Allocation(a.total, a.used + span.days)]
      ensures r.Err? ==> forall k :: Effective(allocations, k) == Effective(old(allocations), k)
      ensures r.Ok? ==> leaves[r.value - 1].status == Pending
      ensures Evolves(old(leaves), leaves)
      ensures old(Bounded()) ==> Bounded()
      ensures old(DefaultTotals()) ==> DefaultTotals()
      ensures old(Ledger()) ==> Ledger()
      ensures old(Bounded()) && old(DefaultTotals()) && ToLower(req.leaveType) !in KnownTypes ==> r.Err?
    {
      var v := CheckLeaveRequest(userId, req, today);
      if v.Err? {
        return Err(v.error);
      }
      var start, end, days := v.value.start, v.value.end, v.value.days;
      var leaveType := ToLower(req.leaveType);
      var key := AllocKey(userId, YearOf(start), leaveType);
      ToLowerIdempotent(req.leaveType);
      var alloc := GetOrCreateAllocation(key);
      var remaining := alloc.total - alloc.used;
      if days > remaining {
        return Err(InsufficientBalance(remaining, days, leaveType));
      }
      var leave := Leave(userId, start, end, leaveType, req.reason, Pending, None);
      if old(Ledger()) {
        LedgerAfterApply(old(allocations), old(leaves), leave);
      }
      OverwriteAllocation(old(allocations), key, alloc, Allocation(alloc.total, alloc.used + days));
      allocations := allocations[key := Allocation(alloc.total, alloc.used + days)];
      leaves := leaves + [leave];
      r := Ok(|leaves|);
    }

    /** A manager approves a pending leave; its days stay blocked. */
    method ApproveLeave(role: string, approverId: nat, id: nat) returns (r: Outcome<LeaveError>)
      modifies this`leaves
      ensures role != "manager" ==> r == Fail(NotManager) && leaves == old(leaves)
      ensures role == "manager" && !IsPending(old(leaves), id) ==>
        r == Fail(NotFoundOrNotPending) && leaves == old(leaves)
      ensures role == "manager" && IsPending(old(leaves), id) ==>
        && r == Pass
        && leaves == old(leaves)[id - 1 := old(leaves)[id - 1].(status := Approved, approvedBy := Some(approverId))]
      ensures Evolves(old(leaves), leaves)
      ensures old(Ledger()) ==> Ledger()
    {
      if role != "manager" {
        return Fail(NotManager);
      }
      if !(1 <= id <= |leaves| && leaves[id - 1].status == Pending) {
        return Fail(NotFoundOrNotPending);
      }
      if Ledger() {
        LedgerAfterApprove(allocations, leaves, id - 1, approverId);
      }
      leaves := leaves[id - 1 := leaves[id - 1].(status := Approved, approvedBy := Some(approverId))];
      r := Pass;
    }

    /** A manager rejects a pending leave; its working days are handed back to
        its allocation, never taking what was used below zero. */
    method RejectLeave(role: string, approverId: nat, id: nat) returns (r: Outcome<LeaveError>)
      modifies this`allocations, this`leaves
      ensures role != "manager" ==>
        r == Fail(NotManager) && allocations == old(allocations) && leaves == old(leaves)
      ensures role == "manager" && !IsPending(old(leaves), id) ==>
        r == Fail(NotFoundOrNotPending) && allocations == old(allocations) && leaves == old(leaves)
      ensures role == "manager" && IsPending(old(leaves), id) ==>
        var l := old(leaves)[id - 1];
        var a := Effective(old(allocations), KeyOf(l));
        var back := a.used - WorkingDays(l.start, l.end);
        && r == Pass
        && leaves == old(leaves)[id - 1 := l.(status := Rejected, approvedBy := Some(approverId))]
        && allocations == old(allocations)[KeyOf(l) := Allocation(a.total, if back < 0 then 0 else back)]
      ensures old(Ledger()) && r.Pass? ==>
        var l := old(leaves)[id - 1];
        allocations[KeyOf(l)].used == Effective(old(allocations), KeyOf(l)).used - WorkingDays(l.start, l.end)
      ensures Evolves(old(leaves), leaves)
      ensures old(Bounded()) ==> Bounded()
      ensures old(DefaultTotals()) ==> DefaultTotals()
      ensures old(Ledger()) ==> Ledger()
    {
      if role != "manager" {
        return Fail(NotManager);
      }
      if !(1 <= id <= |leaves| && leaves[id - 1].status == Pending) {
        return Fail(NotFoundOrNotPending);
      }
      var leave := leaves[id - 1];
      if Ledger() {
        LedgerAfterReject(allocations, leaves, id - 1, approverId);
      }
      DecidingEvolves(leaves, id - 1, Rejected, approverId);
      var days := WorkingDaysBetween(leave.start, leave.end);
      var key := KeyOf(leave);
      var alloc := GetOrCreateAllocation(key);
      var used := alloc.used - days;
      if used < 0 {
        used := 0;
      }
      OverwriteAllocation(old(allocations), key, alloc, Allocation(alloc.total, used));
      allocations := allocations[key := Allocation(alloc.total, used)];
      leaves := leaves[id - 1 := leave.(status := Rejected, approvedBy := Some(approverId))];
      r := Pass;
    }

    /** The ids of the leaves the caller sees in the team view, newest first. */
    function ListTeamLeaves(role: string, caller: nat): (ids: seq<nat>)
      reads this
      ensures forall id :: id in ids <==> 1 <= id <= |leaves| && Visible(role, caller, employees, leaves[id - 1])
      ensures forall i, j :: 0 <= i < j < |ids| ==> ids[i] > ids[j]
    {
      TeamLeaveIds(role, caller, employees, leaves)
    }

    /** The caller's balance for the current year: one row per report type,
        from the allocation row when it exists, else the default quota. */
    method GetMyLeaveBalance(userId: nat, today: Day) returns (r: Result<seq<BalanceRow>, LeaveError>)
      ensures userId == 0 ==> r == Err(MissingUserId)
      ensures userId != 0 ==> r == Ok(BalanceReport(allocations, userId, YearOf(today)))
    {
      if userId == 0 {
        return Err(MissingUserId);
      }
      var year := YearOf(today);
      var existing := map k | k in allocations && k.userId == userId && k.year == year :: k.leaveType := allocations[k];
      ghost var report := BalanceReport(allocations, userId, year);
      var result: seq<BalanceRow> := [];
      for i := 0 to |ReportTypes|
        invariant result == report[..i]
      {
        var t := ReportTypes[i];
        ghost var key := AllocKey(userId, year, t);
        assert key in allocations ==> key.leaveType in existing;
        assert t in existing ==> key in allocations && existing[t] == allocations[key];
        if t in existing {
          var a := existing[t];
          result := result + [BalanceRow(t, a.total, a.used, a.total - a.used)];
        } else {
          var total := DefaultAllocation(t);
          result := result + [BalanceRow(t, total, 0, total)];
        }
        assert result[i] == report[i];
      }
      assert report[..|ReportTypes|] == report;
      return Ok(result);
    }
  }
}
