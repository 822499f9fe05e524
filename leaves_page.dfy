/**
 * The leave page's own checks before it posts a leave request: its count of
 * working days between the two date inputs, the remaining balance it looks
 * up among the rows the balance endpoint returned, and the form reset after
 * a successful post.
 */
module LeavesPage {
  import opened Wrappers
  import opened Calendar
  import opened LeaveModel

  /** A date input as the page holds it: empty, text the date parser cannot
      read (an invalid date, which compares false with everything), or a day. */
  datatype DateField = Blank | Unparsable | Date(day: Day)

  /** The request form: the two dates, the selected leave type and a reason. */
  datatype LeaveForm = LeaveForm(startDate: DateField, endDate: DateField, leaveType: string, reason: string)

  /** Why the page refuses to post. */
  datatype FormError =
    | NoWorkingDay
    | OverBalance(remaining: int, leaveType: string, days: nat)

  /** The form the page starts with, and returns to after a post, for leave type `t`. */
  function EmptyForm(t: string): LeaveForm
  {
    LeaveForm(Blank, Blank, t, "")
  }

  /** The page's count of working days: none unless both inputs hold a date,
      otherwise the weekdays from start to end inclusive. */
  function FormWorkingDays(s: DateField, e: DateField): nat
  {
    if s.Date? && e.Date? then WorkingDays(s.day, e.day) else 0
  }

  /** The page's working-day count, walking day by day from start to end. */
  method WorkingDaysBetween(s: DateField, e: DateField) returns (count: nat)
    ensures count == FormWorkingDays(s, e)
    ensures count <= if s.Date? && e.Date? && s.day <= e.day then e.day - s.day + 1 else 0
  {
    if !s.Date? || !e.Date? {
      return 0;
    }
    var start, end := s.day, e.day;
    if end < start {
      return 0;
    }
    count := 0;
    var cur := start;
    while cur <= end
      invariant start <= cur <= end + 1
      invariant count == WorkingDays(start, cur - 1)
      decreases end - cur
    {
      var day := Weekday(cur);
      if day != Sunday && day != Saturday {
        count := count + 1;
      }
      cur := cur + 1;
    }
    WorkingDaysAtMostCalendarDays(start, end);
  }

  /** The request the page posts for a form: a date input reaches the server
      as a well-formed date exactly when the page could read it. */
  function ToRequest(f: LeaveForm): LeaveRequest
  {
    LeaveRequest(
      if f.startDate.Date? then Some(f.startDate.day) else None,
      if f.endDate.Date? then Some(f.endDate.day) else None,
      f.leaveType,
      f.reason)
  }

  /** The page refuses exactly the forms whose dates the server refuses for
      format, order or lack of a working day; when the start is not in the
      past, a server acceptance and a positive page count go together and
      give the same number of days. */
  lemma PageDayCountAgreesWithServer(userId: nat, f: LeaveForm, today: Day)
    requires userId != 0
    ensures FormWorkingDays(f.startDate, f.endDate) == 0 ==> ValidateRequest(userId, ToRequest(f), today).Err?
    ensures ValidateRequest(userId, ToRequest(f), today).Ok? ==>
      ValidateRequest(userId, ToRequest(f), today).value.days == FormWorkingDays(f.startDate, f.endDate)
    ensures f.startDate.Date? && today <= f.startDate.day ==>
      (ValidateRequest(userId, ToRequest(f), today).Ok? <==> FormWorkingDays(f.startDate, f.endDate) > 0)
  {
    if f.startDate.Date? && f.endDate.Date? && f.endDate.day < f.startDate.day {
      assert WorkingDays(f.startDate.day, f.endDate.day) == 0;
    }
  }

  /** The `remaining` of the first balance row of type `t`, or nothing when no row has that type. */
  function RemainingForType(balances: seq<BalanceRow>, t: string): (rem: Option<int>)
    ensures rem.None? <==> forall i :: 0 <= i < |balances| ==> balances[i].leaveType != t
    ensures rem.Some? ==> exists i ::
      && 0 <= i < |balances| && balances[i].leaveType == t
      && balances[i].remaining == rem.value
      && forall j :: 0 <= j < i ==> balances[j].leaveType != t
  {
    if balances == [] then None
    else if balances[0].leaveType == t then Some(balances[0].remaining)
    else
      var rest := RemainingForType(balances[1..], t);
      if rest.Some? then
        var i :| 0 <= i < |balances[1..]| && balances[1..][i].leaveType == t
          && balances[1..][i].remaining == rest.value
          && forall j :: 0 <= j < i ==> balances[1..][j].leaveType != t;
        assert balances[i + 1] == balances[1..][i];
        assert forall j :: 1 <= j < i + 1 ==> balances[j] == balances[1..][j - 1];
        rest
      else
        assert forall j :: 1 <= j < |balances| ==> balances[j] == balances[1..][j - 1];
        rest
  }

  /** On the rows of a balance report, the page finds for every report type the
      same remaining balance the server checks a request against. */
  lemma {:induction false} ReportGivesServerRemaining(allocs: map<AllocKey, Allocation>, userId: nat, year: int, t: string)
    requires t in LeaveTypes.ReportTypes
    ensures var a := Effective(allocs, AllocKey(userId, year, t));
      RemainingForType(BalanceReport(allocs, userId, year), t) == Some(a.total - a.used)
  {
    var sick := ReportRow(allocs, userId, year, "sick");
    var casual := ReportRow(allocs, userId, year, "casual");
    var vacation := ReportRow(allocs, userId, year, "vacation");
    var rows := BalanceReport(allocs, userId, year);
    assert rows == [sick, casual, vacation];
    assert rows[1..] == [casual, vacation];
    assert rows[1..][1..] == [vacation];
  }

  /** For a type outside the report the page finds no row and skips its balance check. */
  lemma UnreportedTypeHasNoRemaining(allocs: map<AllocKey, Allocation>, userId: nat, year: int, t: string)
    requires t !in LeaveTypes.ReportTypes
    ensures RemainingForType(BalanceReport(allocs, userId, year), t).None?
  {
  }

  /** What the page decides on submit: refuse a form with no working day, then
      one asking for more days than a known remaining balance; otherwise post. */
  function SubmitVerdict(f: LeaveForm, balances: seq<BalanceRow>): (v: Outcome<FormError>)
    ensures v.Pass? <==>
      && FormWorkingDays(f.startDate, f.endDate) > 0
      && (RemainingForType(balances, f.leaveType).Some? ==>
            FormWorkingDays(f.startDate, f.endDate) <= RemainingForType(balances, f.leaveType).value)
    ensures v == Fail(NoWorkingDay) <==> FormWorkingDays(f.startDate, f.endDate) == 0
  {
    var days := FormWorkingDays(f.startDate, f.endDate);
    if days <= 0 then Fail(NoWorkingDay)
    else
      var remaining := RemainingForType(balances, f.leaveType);
      if remaining.Some? && days > remaining.value then Fail(OverBalance(remaining.value, f.leaveType, days))
      else Pass
  }

  /** With the balance report of the request's year loaded, a form the page
      would post passes the server's balance check too, and a form the page
      refuses for its balance is one the server also refuses for it. */
  lemma PageBalanceCheckAgreesWithServer(allocs: map<AllocKey, Allocation>, userId: nat, year: int, f: LeaveForm)
    requires f.leaveType in LeaveTypes.ReportTypes
    requires FormWorkingDays(f.startDate, f.endDate) > 0
    ensures var a := Effective(allocs, AllocKey(userId, year, f.leaveType));
      SubmitVerdict(f, BalanceReport(allocs, userId, year)).Pass? <==>
      FormWorkingDays(f.startDate, f.endDate) <= a.total - a.used
  {
    ReportGivesServerRemaining(allocs, userId, year, f.leaveType);
  }

  /** The leave page's state that submitting reads and writes. */
  class LeavesView {
    var form: LeaveForm
    /** The rows last fetched from the balance endpoint. */
    var balances: seq<BalanceRow>
    /** The message shown above the form, if any. */
    var error: Option<FormError>

    constructor ()
      ensures form == EmptyForm("sick") && balances == [] && error == None
    {
      form := EmptyForm("sick");
      balances := [];
      error := None;
    }

    /** Shows the rows fetched from the balance endpoint. */
    method ShowBalances(rows: seq<BalanceRow>)
      modifies this`balances
      ensures balances == rows
    {
      balances := rows;
    }

    /** Submits the form: refuses it with a message, or posts it. After a post
        that succeeds the dates and reason are cleared and the type is kept;
        after one that fails the form stays as it was. */
    method Submit(postSucceeds: bool) returns (posted: bool)
      modifies this`form, this`error
      ensures posted <==> SubmitVerdict(old(form), balances).Pass?
      ensures !posted ==> form == old(form) && error == Some(SubmitVerdict(old(form), balances).error)
      ensures posted && postSucceeds ==> form == EmptyForm(old(form).leaveType) && error == None
      ensures posted && !postSucceeds ==> form == old(form) && error == None
    {
      error := None;
      var days := WorkingDaysBetween(form.startDate, form.endDate);
      if days <= 0 {
        error := Some(NoWorkingDay);
        return false;
      }
      var remaining := RemainingForType(balances, form.leaveType);
      if remaining.Some? && days > remaining.value {
        error := Some(OverBalance(remaining.value, form.leaveType, days));
        return false;
      }
      posted := true;
      if postSucceeds {
        form := EmptyForm(form.leaveType);
      }
    }
  }
}
