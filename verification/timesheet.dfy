/** The timesheet constraint (`_check_timesheet_type_role` in
    project_timesheet.py): who may log which type of time on a task, and the
    caps on billable and non-billable hours.
 */
module Timesheet {
  import opened Wrappers

  type UserId = nat
  type EmployeeId = nat

  datatype TimesheetType = ExtraHours | Billable | NonBillable

  /** An `account.analytic.line` as the sums read it. */
  datatype AnalyticLine = AnalyticLine(employee: Option<EmployeeId>, timesheetType: TimesheetType, name: string, unitAmount: real)

  /** A `project.task`: its allocated hours, assignees, shadow persons and
      its timesheet lines. */
  datatype Task = Task(name: string, allocatedHours: real, assignees: set<UserId>, shadows: set<UserId>, timesheets: seq<AnalyticLine>)

  datatype TimesheetEmployee = TimesheetEmployee(id: EmployeeId, user: Option<UserId>, nonBillableHours: real)

  /** The line being checked, with its task, project and employee. */
  datatype Record = Record(timesheetType: TimesheetType, task: Option<Task>, hasProject: bool, employee: Option<TimesheetEmployee>)

  datatype TimesheetError =
    | ShadowNotNonBillable
    | AssigneeNonBillable
    | NonBillableRequired
    | BillableOverAllocated(billable: real, cap: real)
    | NonBillableOverAllocated(nonBillable: real, cap: real)
    | NonBillableOverQuota(nonBillable: real, quota: real)

  const TimeOff := "Time Off"

  /** `sub` occurs in `s` starting at position `i`. */
  predicate OccursAt(s: string, sub: string, i: int) {
    0 <= i <= |s| - |sub| && s[i..i + |sub|] == sub
  }

  /** `sub in s`: `sub` occurs in `s` as a contiguous run. */
  function Contains(s: string, sub: string): (r: bool)
    ensures r <==> exists i :: OccursAt(s, sub, i)
    decreases |s|
  {
    if |s| < |sub| then false
    else if s[..|sub|] == sub then
      assert OccursAt(s, sub, 0);
      true
    else
      var r := Contains(s[1..], sub);
      assert r ==> exists i :: OccursAt(s, sub, i) by {
        if r {
          var j :| OccursAt(s[1..], sub, j);
          assert s[j + 1..j + 1 + |sub|] == s[1..][j..j + |sub|];
          assert OccursAt(s, sub, j + 1);
        }
      }
      assert (exists i :: OccursAt(s, sub, i)) ==> r by {
        if exists i :: OccursAt(s, sub, i) {
          var i :| OccursAt(s, sub, i);
          assert i != 0;
          assert s[1..][i - 1..i - 1 + |sub|] == s[i..i + |sub|];
          assert OccursAt(s[1..], sub, i - 1);
        }
      }
      r
  }

  /** ASCII lower case; other characters are kept. */
  function Lower(c: char): char {
    if 'A' <= c <= 'Z' then (c as int + 32) as char else c
  }

  function LowerString(s: string): (r: string)
    ensures |r| == |s| && forall i :: 0 <= i < |s| ==> r[i] == Lower(s[i])
  {
    seq(|s|, i requires 0 <= i < |s| => Lower(s[i]))
  }

  /** The `ilike` match of the search domain: a substring test that ignores
      the case of ASCII letters. */
  predicate ContainsIgnoringCase(s: string, sub: string) {
    Contains(LowerString(s), LowerString(sub))
  }

  /** Whatever `in` finds, `ilike` finds too. */
  lemma ContainsThenIlike(s: string, sub: string)
    requires Contains(s, sub)
    ensures ContainsIgnoringCase(s, sub)
  {
    var i :| OccursAt(s, sub, i);
    var ls := LowerString(s);
    assert ls[i..i + |sub|] == LowerString(sub);
    assert OccursAt(ls, LowerString(sub), i);
  }

  function EmployeeKey(rec: Record): Option<EmployeeId> {
    if rec.employee.Some? then Some(rec.employee.value.id) else None
  }

  /** The role rule: on a task with an employee and a project, shadow persons
      log only non-billable time and assignees never do; without all three only
      non-billable time is allowed. */
  function RoleCheck(rec: Record): (r: Outcome<TimesheetError>)
    ensures r == Pass || r == Fail(ShadowNotNonBillable) || r == Fail(AssigneeNonBillable) || r == Fail(NonBillableRequired)
  {
    if rec.task.Some? && rec.employee.Some? && rec.hasProject then
      var user := rec.employee.value.user;
      if user.Some? && user.value in rec.task.value.shadows && rec.timesheetType != NonBillable then Fail(ShadowNotNonBillable)
      else if user.Some? && user.value in rec.task.value.assignees && rec.timesheetType == NonBillable then Fail(AssigneeNonBillable)
      else Pass
    else if rec.timesheetType != NonBillable then Fail(NonBillableRequired)
    else Pass
  }

  /** The hours of the task's lines by the employee of type `t`, leaving out
      lines whose name contains "Time Off" (case-sensitive). */
  function TaskHours(lines: seq<AnalyticLine>, employee: Option<EmployeeId>, t: TimesheetType): real {
    if |lines| == 0 then 0.0
    else
      var l := lines[0];
      (if l.employee == employee && l.timesheetType == t && !Contains(l.name, TimeOff) then l.unitAmount else 0.0)
      + TaskHours(lines[1..], employee, t)
  }

  /** A line of the employee that the search for all lines returns: its name
      does not match "Time Off" ignoring case. */
  predicate CountsForQuota(l: AnalyticLine, employee: Option<EmployeeId>) {
    l.employee == employee && !ContainsIgnoringCase(l.name, TimeOff) && l.timesheetType == NonBillable
  }

  /** The employee's non-billable hours over all lines the search returns. */
  function EmployeeNonBillable(lines: seq<AnalyticLine>, employee: Option<EmployeeId>): real {
    if |lines| == 0 then 0.0
    else (if CountsForQuota(lines[0], employee) then lines[0].unitAmount else 0.0) + EmployeeNonBillable(lines[1..], employee)
  }

  function AllocatedHours(rec: Record): real {
    if rec.task.Some? then rec.task.value.allocatedHours else 0.0
  }

  function TaskLines(rec: Record): seq<AnalyticLine> {
    if rec.task.Some? then rec.task.value.timesheets else []
  }

  /** The yearly non-billable quota of the record's employee. */
  function Quota(rec: Record): real {
    if rec.employee.Some? then rec.employee.value.nonBillableHours else 0.0
  }

  /** The employee's billable hours on the task fit its allocation. */
  predicate BillableWithinCap(rec: Record) {
    TaskHours(TaskLines(rec), EmployeeKey(rec), Billable) <= AllocatedHours(rec)
  }

  /** The employee's non-billable hours on a task not named "Time Off" fit its
      allocation. */
  predicate NonBillableWithinCap(rec: Record) {
    rec.task.Some? && !Contains(rec.task.value.name, TimeOff) ==>
      TaskHours(TaskLines(rec), EmployeeKey(rec), NonBillable) <= AllocatedHours(rec)
  }

  /** `_check_timesheet_type_role` for one record; `allLines` are all
      analytic lines, from which the search picks the employee's. The rules
      are tried in order (role, billable cap, non-billable cap, yearly quota)
      and the first one broken is reported with the sums it compared. */
  function CheckTimesheetTypeRole(rec: Record, allLines: seq<AnalyticLine>): (r: Outcome<TimesheetError>)
    ensures RoleCheck(rec).Fail? ==> r == RoleCheck(rec)
    ensures r.Fail? && r.error.BillableOverAllocated? ==>
      && RoleCheck(rec) == Pass
      && r.error == BillableOverAllocated(TaskHours(TaskLines(rec), EmployeeKey(rec), Billable), AllocatedHours(rec))
      && r.error.billable > r.error.cap
    ensures r.Fail? && r.error.NonBillableOverAllocated? ==>
      && RoleCheck(rec) == Pass && BillableWithinCap(rec)
      && rec.task.Some? && !Contains(rec.task.value.name, TimeOff)
      && r.error == NonBillableOverAllocated(TaskHours(TaskLines(rec), EmployeeKey(rec), NonBillable), AllocatedHours(rec))
      && r.error.nonBillable > r.error.cap
    ensures r.Fail? && r.error.NonBillableOverQuota? ==>
      && RoleCheck(rec) == Pass && BillableWithinCap(rec) && NonBillableWithinCap(rec)
      && r.error == NonBillableOverQuota(EmployeeNonBillable(allLines, EmployeeKey(rec)), Quota(rec))
      && r.error.nonBillable > r.error.quota
  {
    var role := RoleCheck(rec);
    if role.Fail? then role
    else
      var cap := AllocatedHours(rec);
      var billable := TaskHours(TaskLines(rec), EmployeeKey(rec), Billable);
      if billable > cap then Fail(BillableOverAllocated(billable, cap))
      else
        var nonBillableTask := TaskHours(TaskLines(rec), EmployeeKey(rec), NonBillable);
        var nonBillableAll := EmployeeNonBillable(allLines, EmployeeKey(rec));
        // Without a task both sides are 0, so the task name is never read.
        if nonBillableTask > cap && rec.task.Some? && !Contains(rec.task.value.name, TimeOff) then
          Fail(NonBillableOverAllocated(nonBillableTask, cap))
        else if nonBillableAll > Quota(rec) then Fail(NonBillableOverQuota(nonBillableAll, Quota(rec)))
        else Pass
  }

  /** The rules the constraint enforces, stated one by one. */
  ghost predicate RoleAllowed(rec: Record) {
    if rec.task.Some? && rec.employee.Some? && rec.hasProject then
      var user := rec.employee.value.user;
      && (user.Some? && user.value in rec.task.value.shadows ==> rec.timesheetType == NonBillable)
      && (user.Some? && user.value in rec.task.value.assignees ==> rec.timesheetType != NonBillable)
    else rec.timesheetType == NonBillable
  }

  ghost predicate WithinCaps(rec: Record, allLines: seq<AnalyticLine>) {
    && BillableWithinCap(rec)
    && NonBillableWithinCap(rec)
    && EmployeeNonBillable(allLines, EmployeeKey(rec)) <= Quota(rec)
  }

  /** A record passes exactly when its role allows its type and every cap holds. */
  lemma CheckCharacterization(rec: Record, allLines: seq<AnalyticLine>)
    ensures CheckTimesheetTypeRole(rec, allLines) == Pass <==> RoleAllowed(rec) && WithinCaps(rec, allLines)
  {
  }

  /** Someone who is both a shadow and an assignee of the task cannot log any
      type of time on it. */
  lemma ShadowAssigneeNeverPasses(rec: Record, allLines: seq<AnalyticLine>)
    requires rec.task.Some? && rec.employee.Some? && rec.hasProject
    requires rec.employee.value.user.Some?
    requires rec.employee.value.user.value in rec.task.value.shadows
    requires rec.employee.value.user.value in rec.task.value.assignees
    ensures CheckTimesheetTypeRole(rec, allLines).Fail?
  {
  }

  /** Adding a line at the end adds its hours when it counts and nothing otherwise. */
  lemma {:induction false} EmployeeNonBillableAppend(lines: seq<AnalyticLine>, l: AnalyticLine, employee: Option<EmployeeId>)
    ensures EmployeeNonBillable(lines + [l], employee)
            == EmployeeNonBillable(lines, employee) + (if CountsForQuota(l, employee) then l.unitAmount else 0.0)
    decreases |lines|
  {
    if |lines| == 0 {
      assert lines + [l] == [l];
    } else {
      assert (lines + [l])[1..] == lines[1..] + [l];
      EmployeeNonBillableAppend(lines[1..], l, employee);
    }
  }

  /** A line named with "Time Off" in any case never changes the verdict
      through the quota. */
  lemma TimeOffLinesIgnored(rec: Record, allLines: seq<AnalyticLine>, l: AnalyticLine)
    requires ContainsIgnoringCase(l.name, TimeOff)
    ensures CheckTimesheetTypeRole(rec, allLines + [l]) == CheckTimesheetTypeRole(rec, allLines)
  {
    EmployeeNonBillableAppend(allLines, l, EmployeeKey(rec));
  }

  /** The loop over the records: the first record that breaks a rule raises. */
  function CheckAll(recs: seq<Record>, allLines: seq<AnalyticLine>): (r: Outcome<TimesheetError>)
    ensures r == Pass <==> forall i :: 0 <= i < |recs| ==> CheckTimesheetTypeRole(recs[i], allLines) == Pass
    ensures r.Fail? ==> exists i :: 0 <= i < |recs| && CheckTimesheetTypeRole(recs[i], allLines) == r
                                    && forall j :: 0 <= j < i ==> CheckTimesheetTypeRole(recs[j], allLines) == Pass
  {
    if |recs| == 0 then Pass
    else
      var head := CheckTimesheetTypeRole(recs[0], allLines);
      if head.Fail? then head
      else
        var rest := CheckAll(recs[1..], allLines);
        assert forall i :: 1 <= i < |recs| ==> recs[i] == recs[1..][i - 1];
        if rest.Fail? then
          var i :| 0 <= i < |recs| - 1 && CheckTimesheetTypeRole(recs[1..][i], allLines) == rest
                   && forall j :: 0 <= j < i ==> CheckTimesheetTypeRole(recs[1..][j], allLines) == Pass;
          assert CheckTimesheetTypeRole(recs[i + 1], allLines) == rest;
          rest
        else rest
  }
}
