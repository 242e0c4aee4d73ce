/**
 * The queries of service/EmployeeService.java that read an employee's
 * punches: the current IN/OUT status, the last punch, the period filters,
 * the search by username, and the two pay-period reports.
 *
 * The employee repository is a sequence of employees in the order findAll
 * returns them. Every query first looks the employee up by id; every read
 * of the punches goes through Employee.GetPunches and so leaves the
 * employee's list sorted. The clock ("now") and the calendar that gives a
 * time's year, month and day of the year are parameters.
 */
module EmployeeService {
  import opened Outcomes
  import opened Punches
  import opened Employees
  import opened HoursWorked

  // ---------------------------------------------------------------------
  // Looking employees up
  // ---------------------------------------------------------------------

  /** getById: the employee with that id, or EmployeeNotFound. */
  function GetById(employees: seq<Employee>, id: int): (r: Result<Employee>)
    ensures r.Success? ==> r.value in employees && r.value.id == id
    ensures r.Failure? <==> forall k :: 0 <= k < |employees| ==> employees[k].id != id
    ensures r.Failure? ==> r.error == EmployeeNotFound(id)
  {
    if employees == [] then Failure(EmployeeNotFound(id))
    else if employees[0].id == id then Success(employees[0])
    else GetById(employees[1..], id)
  }

  /** Character.toUpperCase on the ASCII letters. */
  function UpperAscii(c: char): char
  {
    if 'a' <= c <= 'z' then (c as int - 32) as char else c
  }

  /** String.equalsIgnoreCase: the same length, and at each position the
      same character or the same character once upper-cased. */
  predicate EqualsIgnoreCase(a: string, b: string)
  {
    |a| == |b| && forall i :: 0 <= i < |a| ==> a[i] == b[i] || UpperAscii(a[i]) == UpperAscii(b[i])
  }

  /** The text with every ASCII letter upper-cased. */
  function UpperCase(s: string): (r: string)
    ensures |r| == |s|
    ensures forall i :: 0 <= i < |s| ==> r[i] == UpperAscii(s[i])
  {
    if s == [] then [] else [UpperAscii(s[0])] + UpperCase(s[1..])
  }

  /** Two names are equal ignoring case exactly when their upper-cased forms
      are equal; so the relation is an equivalence. */
  lemma EqualsIgnoreCaseIsUpperCaseEquality(a: string, b: string)
    ensures EqualsIgnoreCase(a, b) <==> UpperCase(a) == UpperCase(b)
  {
  }

  /** getByUsername: the first employee, in repository order, whose username
      equals the argument ignoring case; EmployeeNotFound if there is none. */
  method GetByUsername(employees: seq<Employee>, username: string) returns (r: Result<Employee>)
    ensures r.Failure? <==> forall k :: 0 <= k < |employees| ==> !EqualsIgnoreCase(employees[k].username, username)
    ensures r.Failure? ==> r.error == EmployeeUsernameNotFound(username)
    ensures r.Success? ==> exists k :: 0 <= k < |employees| && employees[k] == r.value &&
                             EqualsIgnoreCase(employees[k].username, username) &&
                             forall j :: 0 <= j < k ==> !EqualsIgnoreCase(employees[j].username, username)
  {
    for k := 0 to |employees|
      invariant forall j :: 0 <= j < k ==> !EqualsIgnoreCase(employees[j].username, username)
    {
      if EqualsIgnoreCase(employees[k].username, username) {
        return Success(employees[k]);
      }
    }
    return Failure(EmployeeUsernameNotFound(username));
  }

  // ---------------------------------------------------------------------
  // Status and last punch
  // ---------------------------------------------------------------------

  /** getPunchStatus: OUT when the employee has an even number of punches,
      IN when odd. */
  method GetPunchStatus(employees: seq<Employee>, id: int) returns (r: Result<PunchStatus>)
    modifies set x | x in employees :: x`punches
    ensures GetById(employees, id).Failure? ==> r == Failure(EmployeeNotFound(id))
    ensures GetById(employees, id).Success? ==>
              var e := GetById(employees, id).value;
              e.punches == SortByTime(old(e.punches)) && r == Success(StatusAfter(|e.punches|))
    ensures forall x :: x in employees && (GetById(employees, id).Failure? || x != GetById(employees, id).value) ==>
              x.punches == old(x.punches)
  {
    var found := GetById(employees, id);
    if found.Failure? {
      return Failure(found.error);
    }
    var employee := found.value;
    var punches := employee.GetPunches();
    if |punches| % 2 == 0 {
      r := Success(OUT);
    } else {
      r := Success(IN);
    }
  }

  /** The last element of a punch list, if there is one; on a list sorted by
      time, a latest punch. */
  function LastPunch(ps: seq<Punch>): (r: Option<Punch>)
    ensures r.None? <==> ps == []
    ensures r.Some? ==> r.value in ps
    ensures r.Some? && SortedByTime(ps) ==> forall q :: q in ps ==> q.time <= r.value.time
  {
    if ps == [] then None else Some(ps[|ps| - 1])
  }

  /** getLastPunch: null for an empty history, otherwise the last punch of
      the time-sorted list. */
  method GetLastPunch(employees: seq<Employee>, id: int) returns (r: Result<Option<Punch>>)
    modifies set x | x in employees :: x`punches
    ensures GetById(employees, id).Failure? ==> r == Failure(EmployeeNotFound(id))
    ensures GetById(employees, id).Success? ==>
              var e := GetById(employees, id).value;
              e.punches == SortByTime(old(e.punches)) && r == Success(LastPunch(e.punches))
    ensures forall x :: x in employees && (GetById(employees, id).Failure? || x != GetById(employees, id).value) ==>
              x.punches == old(x.punches)
  {
    var found := GetById(employees, id);
    if found.Failure? {
      return Failure(found.error);
    }
    var employee := found.value;
    var punches := employee.GetPunches();
    if punches == [] {
      r := Success(None);
    } else {
      // getLastPunch calls getPunches twice more (the list is already sorted)
      // and returns its element at size - 1
      var again := employee.GetPunches();
      r := Success(LastPunch(again));
    }
  }

  // ---------------------------------------------------------------------
  // Period filters
  // ---------------------------------------------------------------------

  /** The calendar fields of a time, as LocalDateTime gives them. */
  datatype LocalDate = LocalDate(year: int, month: int, dayOfYear: int)

  /** The periods of getTodayPunches, getMonthPunches, getYearPunches,
      getPastWeekPunches and getPastTwoWeekPunches. */
  datatype Period = Today | Month | Year | PastWeek | PastTwoWeeks

  /** The date test of each filter, for a punch at `t` when the clock reads `now`. */
  predicate InPeriod(period: Period, calendar: int -> LocalDate, now: int, t: int)
  {
    var d := calendar(t);
    var today := calendar(now);
    match period
    case Today => d.year == today.year && d.dayOfYear == today.dayOfYear
    case Month => d.year == today.year && d.month == today.month
    case Year => d.year == today.year
    case PastWeek =>
      d.year == today.year && d.dayOfYear <= today.dayOfYear &&
      d.dayOfYear > calendar(now - SecondsPerWeek).dayOfYear
    case PastTwoWeeks =>
      d.year == today.year && d.dayOfYear <= today.dayOfYear &&
      d.dayOfYear > calendar(now - 2 * SecondsPerWeek).dayOfYear
  }

  /** The date test of a filter as a test on punch times. */
  function PeriodTest(period: Period, calendar: int -> LocalDate, now: int): int -> bool
  {
    t => InPeriod(period, calendar, now, t)
  }

  /** The loop of every period filter: the punches that pass the test, in order. */
  method FilterPunches(punches: seq<Punch>, keep: int -> bool) returns (r: seq<Punch>)
    ensures r == Select(punches, keep)
  {
    r := [];
    for k := 0 to |punches|
      invariant r == Select(punches[..k], keep)
    {
      assert punches[..k + 1] == punches[..k] + [punches[k]];
      SelectAppend(punches[..k], punches[k], keep);
      if keep(punches[k].time) {
        r := r + [punches[k]];
      }
    }
    assert punches[..|punches|] == punches;
  }

  /** The period filters: null when the employee has no punch at all,
      otherwise the punches of the period in time order. */
  method GetPeriodPunches(employees: seq<Employee>, id: int, period: Period,
                          calendar: int -> LocalDate, now: int)
    returns (r: Result<Option<seq<Punch>>>)
    modifies set x | x in employees :: x`punches
    ensures GetById(employees, id).Failure? ==> r == Failure(EmployeeNotFound(id))
    ensures GetById(employees, id).Success? ==>
              var e := GetById(employees, id).value;
              e.punches == SortByTime(old(e.punches)) &&
              r == Success(if e.punches == [] then None
                           else Some(Select(e.punches, PeriodTest(period, calendar, now))))
    ensures forall x :: x in employees && (GetById(employees, id).Failure? || x != GetById(employees, id).value) ==>
              x.punches == old(x.punches)
  {
    var found := GetById(employees, id);
    if found.Failure? {
      return Failure(found.error);
    }
    var employee := found.value;
    var punches := employee.GetPunches();
    if punches == [] {
      return Success(None);
    }
    punches := employee.GetPunches();
    var selected := FilterPunches(punches, PeriodTest(period, calendar, now));
    r := Success(Some(selected));
  }

  /** getAllPunches: the employee's punches, sorted by time. */
  method GetAllPunches(employees: seq<Employee>, id: int) returns (r: Result<seq<Punch>>)
    modifies set x | x in employees :: x`punches
    ensures GetById(employees, id).Failure? ==> r == Failure(EmployeeNotFound(id))
    ensures GetById(employees, id).Success? ==>
              var e := GetById(employees, id).value;
              e.punches == SortByTime(old(e.punches)) && r == Success(e.punches)
    ensures forall x :: x in employees && (GetById(employees, id).Failure? || x != GetById(employees, id).value) ==>
              x.punches == old(x.punches)
  {
    var found := GetById(employees, id);
    if found.Failure? {
      return Failure(found.error);
    }
    var punches := found.value.GetPunches();
    r := Success(punches);
  }

  /** A period filter returns exactly the punches whose date passes its
      test, in the order of the history. */
  lemma PeriodFilterExact(ps: seq<Punch>, period: Period, calendar: int -> LocalDate, now: int, p: Punch)
    ensures p in Select(ps, PeriodTest(period, calendar, now)) <==> p in ps && InPeriod(period, calendar, now, p.time)
    ensures IsSubsequence(Select(ps, PeriodTest(period, calendar, now)), ps)
  {
    SelectMember(ps, PeriodTest(period, calendar, now), p);
    SelectIsSubsequence(ps, PeriodTest(period, calendar, now));
  }

  /** The past-week filter compares days of the year: when the day a week
      ago has a day-of-year number no smaller than today's, as in the first
      six days of a year, it selects nothing, whatever the history. */
  lemma {:induction false} PastWeekEmptyAtYearStart(ps: seq<Punch>, calendar: int -> LocalDate, now: int)
    requires calendar(now - SecondsPerWeek).dayOfYear >= calendar(now).dayOfYear
    ensures Select(ps, PeriodTest(PastWeek, calendar, now)) == []
  {
    if ps != [] {
      PastWeekEmptyAtYearStart(ps[1..], calendar, now);
      assert !InPeriod(PastWeek, calendar, now, ps[0].time);
    }
  }

  // ---------------------------------------------------------------------
  // Pay-period reports
  // ---------------------------------------------------------------------

  /** response/Report.java: the employee, the regular and overtime hours of
      two consecutive weeks, and an optional flag. */
  datatype Report = Report(employee: Employee,
                           weekOneRegHrs: real, weekOneOverHrs: real,
                           weekTwoRegHrs: real, weekTwoOverHrs: real,
                           flag: Option<string>)

  /** Hours above which a week's hours count as overtime. */
  const RegularHoursCap: real := 40.0

  const OutOfBoundsFlag: string := "Hours out of bounds"

  /** A week total split into regular hours (capped at 40) and overtime (the
      rest): the two add up to the total and overtime is never negative. */
  function SplitHours(total: real): (split: (real, real))
    ensures split.0 <= RegularHoursCap && 0.0 <= split.1
    ensures split.0 + split.1 == total
    ensures total <= RegularHoursCap ==> split == (total, 0.0)
    ensures RegularHoursCap < total ==> split.0 == RegularHoursCap && 0.0 < split.1
  {
    var regular := if total > RegularHoursCap then RegularHoursCap else total;
    (regular, total - regular)
  }

  /** The flag: raised exactly when a week total lies outside the closed
      range [minHrs, maxHrs]; a total equal to a bound raises nothing. */
  function BoundsFlag(weekOne: real, weekTwo: real, minHrs: real, maxHrs: real): (flag: Option<string>)
    ensures flag.None? <==> minHrs <= weekOne <= maxHrs && minHrs <= weekTwo <= maxHrs
    ensures flag.Some? ==> flag.value == OutOfBoundsFlag
  {
    if weekOne > maxHrs || weekOne < minHrs || weekTwo > maxHrs || weekTwo < minHrs then Some(OutOfBoundsFlag)
    else None
  }

  /** A report from the two week totals and the employee's bounds. */
  function MakeReport(employee: Employee, weekOne: real, weekTwo: real, minHrs: real, maxHrs: real): (r: Report)
    ensures r.employee == employee
    ensures r.weekOneRegHrs + r.weekOneOverHrs == weekOne && r.weekOneRegHrs <= RegularHoursCap && 0.0 <= r.weekOneOverHrs
    ensures r.weekTwoRegHrs + r.weekTwoOverHrs == weekTwo && r.weekTwoRegHrs <= RegularHoursCap && 0.0 <= r.weekTwoOverHrs
    ensures r.flag.None? <==> minHrs <= weekOne <= maxHrs && minHrs <= weekTwo <= maxHrs
    ensures (r.weekOneRegHrs, r.weekOneOverHrs) == SplitHours(weekOne)
    ensures (r.weekTwoRegHrs, r.weekTwoOverHrs) == SplitHours(weekTwo)
    ensures r.flag == BoundsFlag(weekOne, weekTwo, minHrs, maxHrs)
  {
    var one := SplitHours(weekOne);
    var two := SplitHours(weekTwo);
    Report(employee, one.0, one.1, two.0, two.1, BoundsFlag(weekOne, weekTwo, minHrs, maxHrs))
  }

  /** Tenths of an hour as hours. */
  function Hours(tenths: int): real
  {
    tenths as real / 10.0
  }

  /** The report over the weeks [first, middle] and [middle, last] of a
      sorted history; it fails when either week's sum fails. */
  function WeeksReport(employee: Employee, ps: seq<Punch>, first: int, middle: int, last: int,
                       minHrs: real, maxHrs: real): (r: Result<Report>)
    ensures r.Failure? <==> WeekHrs(ps, first, middle).Failure? || WeekHrs(ps, middle, last).Failure?
    ensures r.Failure? ==> r.error == IndexOutOfBounds
    ensures r.Success? ==>
              r.value.employee == employee &&
              r.value.weekOneRegHrs + r.value.weekOneOverHrs == Hours(WeekHrs(ps, first, middle).value) &&
              r.value.weekTwoRegHrs + r.value.weekTwoOverHrs == Hours(WeekHrs(ps, middle, last).value) &&
              r.value.flag == BoundsFlag(Hours(WeekHrs(ps, first, middle).value), Hours(WeekHrs(ps, middle, last).value),
                                         minHrs, maxHrs)
  {
    var weekOne := WeekHrs(ps, first, middle);
    var weekTwo := WeekHrs(ps, middle, last);
    if weekOne.Failure? then Failure(weekOne.error)
    else if weekTwo.Failure? then Failure(weekTwo.error)
    else Success(MakeReport(employee, Hours(weekOne.value), Hours(weekTwo.value), minHrs, maxHrs))
  }

  /** The body shared by both reports: look the employee up, sum the hours
      of the two weeks, split and flag them. */
  method ReportForWeeks(employees: seq<Employee>, id: int, first: int, middle: int, last: int)
    returns (r: Result<Report>)
    modifies set x | x in employees :: x`punches
    ensures GetById(employees, id).Failure? ==> r == Failure(EmployeeNotFound(id))
    ensures GetById(employees, id).Success? ==>
              var e := GetById(employees, id).value;
              e.punches == SortByTime(old(e.punches)) &&
              r == WeeksReport(e, e.punches, first, middle, last, e.weekHrsMin, e.weekHrsMax)
    ensures forall x :: x in employees && (GetById(employees, id).Failure? || x != GetById(employees, id).value) ==>
              x.punches == old(x.punches)
  {
    var found := GetById(employees, id);
    if found.Failure? {
      return Failure(found.error);
    }
    var employee := found.value;
    var weekOneTotal := GetWeekHrs(employee, first, middle);
    if weekOneTotal.Failure? {
      return Failure(weekOneTotal.error);
    }
    ghost var sorted := employee.punches;
    var weekTwoTotal := GetWeekHrs(employee, middle, last);
    SortByTimeKeepsSorted(sorted);
    if weekTwoTotal.Failure? {
      return Failure(weekTwoTotal.error);
    }
    r := Success(MakeReport(employee, Hours(weekOneTotal.value), Hours(weekTwoTotal.value),
                            employee.weekHrsMin, employee.weekHrsMax));
  }

  /** getPayPeriodReport: the weeks [now - 2 weeks, now - 1 week] and
      [now - 1 week, now]. */
  method GetPayPeriodReport(employees: seq<Employee>, id: int, now: int) returns (r: Result<Report>)
    modifies set x | x in employees :: x`punches
    ensures GetById(employees, id).Failure? ==> r == Failure(EmployeeNotFound(id))
    ensures GetById(employees, id).Success? ==>
              var e := GetById(employees, id).value;
              e.punches == SortByTime(old(e.punches)) &&
              r == WeeksReport(e, e.punches, now - 2 * SecondsPerWeek, now - SecondsPerWeek, now,
                               e.weekHrsMin, e.weekHrsMax)
    ensures forall x :: x in employees && (GetById(employees, id).Failure? || x != GetById(employees, id).value) ==>
              x.punches == old(x.punches)
  {
    r := ReportForWeeks(employees, id, now - 2 * SecondsPerWeek, now - SecondsPerWeek, now);
  }

  /** getPastPayPeriodReport: the weeks [now - 4 weeks, now - 3 weeks] and
      [now - 3 weeks, now - 2 weeks]. */
  method GetPastPayPeriodReport(employees: seq<Employee>, id: int, now: int) returns (r: Result<Report>)
    modifies set x | x in employees :: x`punches
    ensures GetById(employees, id).Failure? ==> r == Failure(EmployeeNotFound(id))
    ensures GetById(employees, id).Success? ==>
              var e := GetById(employees, id).value;
              e.punches == SortByTime(old(e.punches)) &&
              r == WeeksReport(e, e.punches, now - 4 * SecondsPerWeek, now - 3 * SecondsPerWeek,
                               now - 2 * SecondsPerWeek, e.weekHrsMin, e.weekHrsMax)
    ensures forall x :: x in employees && (GetById(employees, id).Failure? || x != GetById(employees, id).value) ==>
              x.punches == old(x.punches)
  {
    r := ReportForWeeks(employees, id, now - 4 * SecondsPerWeek, now - 3 * SecondsPerWeek, now - 2 * SecondsPerWeek);
  }

  /** Both report windows include their ends, so a punch exactly on the
      shared boundary lies in both weeks. */
  lemma SharedBoundaryInBothWeeks(ps: seq<Punch>, first: int, middle: int, last: int, p: Punch)
    requires p in ps && first <= middle <= last && p.time == middle
    ensures p in Within(ps, first, middle) && p in Within(ps, middle, last)
  {
    WindowPartition(ps, first, middle, p);
    WindowPartition(ps, middle, last, p);
  }

  /** In a report over a sorted history each week total lies in [0, 168]
      hours, the range the weekly bounds are validated against; so an
      employee whose bounds are the whole range 0 to 168 is never flagged. */
  lemma WidestBoundsNeverFlag(employee: Employee, ps: seq<Punch>, first: int)
    requires SortedByTime(ps)
    requires WeeksReport(employee, ps, first, first + SecondsPerWeek, first + 2 * SecondsPerWeek, 0.0, 168.0).Success?
    ensures WeeksReport(employee, ps, first, first + SecondsPerWeek, first + 2 * SecondsPerWeek, 0.0, 168.0).value.flag.None?
  {
    WeekHrsWithinWeek(ps, first);
    WeekHrsWithinWeek(ps, first + SecondsPerWeek);
  }
}
