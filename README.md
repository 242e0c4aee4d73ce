# TimeCapture punch accounting, in Dafny

TimeCapture is a time-clock service. Employees punch in and out; a punch
records only an employee and a time, and whether it is a clock-in or a
clock-out follows from its position in the employee's time-sorted punch
list: after an even number of punches the employee is OUT, after an odd
number IN. From those lists the service answers status and history
queries and builds two-week pay-period reports that split each week's
hours into regular hours (up to 40) and overtime and flag weeks outside
the employee's configured bounds. Administrators, and employees for their
own punches, add punches to the punch table; it refuses a punch whose
employee already has one at the supplied time. Only an administrator's
punch is stored at that supplied time; an employee's own punch is stored
at the current time, which is not checked, so the table keeps one punch
per employee and time only on the administrator's path.

This project models that core and proves its properties:

- `outcomes.dfy` (module `Outcomes`): `Option`, and the services'
  exceptions as the `Error` cases of a `Result`.
- `punches.dfy` (module `Punches`): the punch record, the order-preserving
  selection every filter is an instance of, and the stable sort by time.
- `employees.dfy` (module `Employees`): the employee entity as a class
  whose punch list `GetPunches` sorts in place; its field constraints as
  the predicate `SatisfiesConstraints`.
- `hours_worked.dfy` (module `HoursWorked`): `getWeekHrs`, the hours worked
  in a closed window `[start, end]`, as the imperative partition loop and
  one stride-2 pairing loop (`SumPairs`), which each of the four parity
  branches of `PairIncluded` runs over the source's bounds (0 to n, 0 to
  n - 1, 1 to n - 1 and 1 to n), each proved equal to a specification
  function; and what that function measures: on a sorted history the
  summed minutes never exceed, and on whole-minute times equal, the time
  of the window covered by shifts (`Covered`, an independent definition).
- `employee_service.dfy` (module `EmployeeService`): lookup by id and by
  username, punch status, last punch, the period filters, and the two
  pay-period reports.
- `punch_service.dfy` (module `PunchServices`): the punch table as a class
  with `GetById`, `Add`, `Update` and `Delete` and their guards.

Times are whole seconds, the resolution of a punch time in the API's JSON
(Punch.java line 29). A week is
604800 seconds, so `minusWeeks(k)` is `now - k * 604800`. The hours of a
window are kept as an integer number of tenths of an hour, the result of
`setScale(1, HALF_UP)`; the reports turn them into `real` hours. The clock
("now"), the calendar that gives a time's year, month and day of the year,
and whether the caller is an administrator are parameters.

In the IN to IN case the code closes the window with the segment from the
last punch inside it to `end` (HoursWorked.java line 50), as the OUT to IN
case does for the shift still open at `end` (line 42); `WindowMinutes`
does the same, and `WindowMinutesMeasureCoverage` proves that the whole
sum, this segment included, is the window time covered by shifts on
whole-minute times and never more than it otherwise.

The model follows the code where it departs from the evident design: IN
at both ends of a window with no punch inside it reads the first element
of an empty list (HoursWorked.java line 46). The model returns
`Failure(IndexOutOfBounds)` there rather than the whole window, and
`CrashExactlyWhenShiftSpansWindow` proves that this happens exactly when
a shift opened before `start` has no punch inside the window, and that
this shift then covers the whole window.

## Model

| member | source | states |
|---|---|---|
| Punches.Select | src/main/java/ghorned/timecapture/utility/HoursWorked.java:19-27 | a filter keeps no more punches than it is given, and every punch it keeps passes its test |
| Punches.SelectMember | src/main/java/ghorned/timecapture/utility/HoursWorked.java:19-27 | a punch is kept exactly when it is in the list and its time passes the test |
| Punches.SelectIsSubsequence | src/main/java/ghorned/timecapture/service/EmployeeService.java:120-127 | the kept punches appear in the order of the input list |
| Punches.SelectAppend | src/main/java/ghorned/timecapture/utility/HoursWorked.java:19-27 | one more loop iteration appends the punch to the result exactly when it passes the test |
| Punches.SelectCounts | src/main/java/ghorned/timecapture/utility/HoursWorked.java:29-30 | two disjoint tests keep at most every punch once between them, and every punch once when each punch passes one of them |
| Punches.InsertByTime | src/main/java/ghorned/timecapture/entity/Employee.java:63 | inserting a punch adds exactly that punch to the list's multiset |
| Punches.InsertByTimeSorted | src/main/java/ghorned/timecapture/entity/Employee.java:63 | inserting into a time-sorted list keeps it sorted |
| Punches.SortByTime | src/main/java/ghorned/timecapture/entity/Employee.java:63 | the sorted list is ascending by time and a permutation of the input |
| Punches.InsertLatest | src/main/java/ghorned/timecapture/entity/Employee.java:63 | a punch no earlier than every punch of the list is inserted at its end |
| Punches.SortByTimeKeepsSorted | src/main/java/ghorned/timecapture/entity/Employee.java:62-64 | sorting an already sorted list changes nothing, so sorting twice equals sorting once |
| Employees.Employee.constructor | src/main/java/ghorned/timecapture/entity/Employee.java:23-60 | a new employee holds exactly the given field values |
| Employees.Employee.GetPunches | src/main/java/ghorned/timecapture/entity/Employee.java:62-65 | the field is replaced by its sorted permutation and that same list is returned; an already sorted field is left unchanged |
| Employees.Employee.Authorities | src/main/java/ghorned/timecapture/entity/Employee.java:67-71 | the granted authorities are the single access authority of the employee |
| Employees.NotBlankIsNonEmptyTrim | src/main/java/ghorned/timecapture/entity/Employee.java:28-43 | `@NotBlank` (the text trimmed of leading and trailing characters up to U+0020 is not empty) holds exactly when some character is above U+0020 |
| Employees.Utf16Length | src/main/java/ghorned/timecapture/entity/Employee.java:33 | the length `@Size` checks, in UTF-16 code units: between the number of characters and twice it, and equal to it when no character lies above U+FFFF |
| Employees.Employee.SatisfiesConstraints | src/main/java/ghorned/timecapture/entity/Employee.java:28-51 | the declared field constraints: username, password and both names not blank, a password of 8 to 72 UTF-16 code units (`Utf16Length`, as `String.length()` counts), and both weekly hour bounds in `[0, 168]` (partner: `NotBlankIsNonEmptyTrim` for `@NotBlank`; with the widest such bounds `WidestBoundsNeverFlag`) |
| HoursWorked.StatusAfter | src/main/java/ghorned/timecapture/utility/HoursWorked.java:29-30 | the state after a number of punches: OUT for an even count, IN for an odd one (partner: `StatusAfterIsToggled`) |
| HoursWorked.StatusAfterIsToggled | src/main/java/ghorned/timecapture/utility/HoursWorked.java:29-30 | the parity rule gives the same state as toggling IN/OUT at every punch from OUT |
| HoursWorked.Minutes | src/main/java/ghorned/timecapture/utility/HoursWorked.java:36 | `Duration.between(from, to).toMinutes()`: the gap in whole minutes, truncated toward zero (bounds proved in `MinutesBounds`) |
| HoursWorked.MinutesBounds | src/main/java/ghorned/timecapture/utility/HoursWorked.java:36 | the minutes between two times are the whole minutes of the gap truncated toward zero, exact on whole-minute gaps |
| HoursWorked.RoundHalfUpTenths | src/main/java/ghorned/timecapture/utility/HoursWorked.java:58 | the result is the nearest tenth of an hour to the minutes, a tie rounded away from zero |
| HoursWorked.WindowMinutes | src/main/java/ghorned/timecapture/utility/HoursWorked.java:32-57 | the unrounded minutes of a window over a sorted history; a failure is always `IndexOutOfBounds` and only when the start state is IN with no punch inside |
| HoursWorked.WeekHrs | src/main/java/ghorned/timecapture/utility/HoursWorked.java:15-58 | the window's hours in tenths: fails exactly when the minutes fail, always with `IndexOutOfBounds`, and for a non-negative sum is the tenth of an hour nearest to the minutes |
| HoursWorked.GetWeekHrs | src/main/java/ghorned/timecapture/utility/HoursWorked.java:15-59 | the employee's punches are left sorted, and the result is the window's hours over that sorted list |
| HoursWorked.WeekHrsOf | src/main/java/ghorned/timecapture/utility/HoursWorked.java:16-58 | partition, pairing and rounding together compute the window's hours, or the empty-list failure |
| HoursWorked.Partition | src/main/java/ghorned/timecapture/utility/HoursWorked.java:16-27 | the loop yields the punches strictly before `start` and those in `[start, end]`, each in input order |
| HoursWorked.PairIncluded | src/main/java/ghorned/timecapture/utility/HoursWorked.java:29-57 | the four branches chosen by the boundary parities sum exactly the minutes of the window's shifts, and fail only for IN at the start with no punch inside |
| HoursWorked.PartitionMinutes | src/main/java/ghorned/timecapture/utility/HoursWorked.java:29-57 | the minutes read off the two partition lists: pairs from the first included punch when the excluded count is even, otherwise a segment from `start` to the first included punch and pairs after it, failing when nothing is included |
| HoursWorked.SumPairs | src/main/java/ghorned/timecapture/utility/HoursWorked.java:35-55 | a stride-2 loop sums the minutes of the consecutive pairs of its slice |
| HoursWorked.PairedMinutesOdd | src/main/java/ghorned/timecapture/utility/HoursWorked.java:39-42 | an odd number of punches is its pairs plus a last shift running to `end` |
| HoursWorked.PairsOnly | src/main/java/ghorned/timecapture/utility/HoursWorked.java:35-37 | an even number of punches pairs up completely, whatever `end` is |
| HoursWorked.SortedSplit | src/main/java/ghorned/timecapture/utility/HoursWorked.java:19-27 | on a sorted list the excluded punches are a prefix, the included ones the next slice, and the rest lie after `end` |
| HoursWorked.SpanningShiftCoversWindow | src/main/java/ghorned/timecapture/utility/HoursWorked.java:45-46 | IN at `start` with no punch inside the window on a sorted history: shifts cover the whole window |
| HoursWorked.WindowPartition | src/main/java/ghorned/timecapture/utility/HoursWorked.java:19-27 | a punch is excluded exactly when before `start`, included exactly when in `[start, end]`, and after `end` in neither |
| HoursWorked.BoundaryPunchIsInside | src/main/java/ghorned/timecapture/utility/HoursWorked.java:20-24 | a punch exactly at `start` or at `end` is included and not excluded |
| HoursWorked.PartitionKeepsOrder | src/main/java/ghorned/timecapture/utility/HoursWorked.java:19-27 | both partition lists keep the order of the punch list |
| HoursWorked.BoundaryStatesParity | src/main/java/ghorned/timecapture/utility/HoursWorked.java:29-56 | the two boundary states agree exactly when the number of included punches is even |
| HoursWorked.EndStatusIsCurrentStatus | src/main/java/ghorned/timecapture/utility/HoursWorked.java:30 | a window ending at or after the last punch ends in the state after all punches |
| HoursWorked.PairedMinutesMeasureCoverage | src/main/java/ghorned/timecapture/utility/HoursWorked.java:33-43 | pairing from an OUT start counts at most, and on whole minutes exactly, the window time covered by the shifts |
| HoursWorked.CoverageFromOut | src/main/java/ghorned/timecapture/utility/HoursWorked.java:33-43 | from an OUT start, the pairs of the punches inside count at most, and on whole minutes exactly, the covered window time |
| HoursWorked.CoverageFromIn | src/main/java/ghorned/timecapture/utility/HoursWorked.java:44-56 | from an IN start, the segment from `start` plus the later pairs count at most, and on whole minutes exactly, the covered window time |
| HoursWorked.WindowMinutesMeasureCoverage | src/main/java/ghorned/timecapture/utility/HoursWorked.java:32-57 | on a sorted history the summed minutes are never negative, never more than the covered time of the window, and equal to it on whole-minute times |
| HoursWorked.WeekHrsWithinWeek | src/main/java/ghorned/timecapture/utility/HoursWorked.java:15-58 | on a sorted history a one-week window yields between 0 and 168 hours |
| HoursWorked.CrashExactlyWhenShiftSpansWindow | src/main/java/ghorned/timecapture/utility/HoursWorked.java:45-46 | the sum fails exactly when both boundary states are IN and no punch is inside, and then one shift covers the whole window |
| EmployeeService.GetById | src/main/java/ghorned/timecapture/service/EmployeeService.java:35-38 | the employee with that id, or EmployeeNotFound exactly when no employee has it |
| EmployeeService.EqualsIgnoreCase | src/main/java/ghorned/timecapture/service/EmployeeService.java:43 | `equalsIgnoreCase`: equal lengths and, at each position, equal characters or equal upper-cased characters (partner: `EqualsIgnoreCaseIsUpperCaseEquality`) |
| EmployeeService.EqualsIgnoreCaseIsUpperCaseEquality | src/main/java/ghorned/timecapture/service/EmployeeService.java:43 | two names are equal ignoring case exactly when their upper-cased forms are equal |
| EmployeeService.GetByUsername | src/main/java/ghorned/timecapture/service/EmployeeService.java:41-48 | the first employee whose username equals the argument ignoring case, or EmployeeNotFound exactly when there is none |
| EmployeeService.GetPunchStatus | src/main/java/ghorned/timecapture/service/EmployeeService.java:95-102 | OUT when the employee's punch count is even and IN when odd; the employee's list is left sorted and other employees untouched |
| EmployeeService.LastPunch | src/main/java/ghorned/timecapture/service/EmployeeService.java:107-111 | absent exactly for an empty list, otherwise a punch of the list that is latest when the list is sorted |
| EmployeeService.GetLastPunch | src/main/java/ghorned/timecapture/service/EmployeeService.java:105-112 | null for an empty history, otherwise the last punch of the sorted history |
| EmployeeService.FilterPunches | src/main/java/ghorned/timecapture/service/EmployeeService.java:120-127 | the filter loop returns the punches passing the date test, in order |
| EmployeeService.InPeriod | src/main/java/ghorned/timecapture/service/EmployeeService.java:122-198 | the date test of each filter: same year and day; same year and month; same year; same year, day of the year not after today's and after that of one (or two) weeks ago |
| EmployeeService.GetPeriodPunches | src/main/java/ghorned/timecapture/service/EmployeeService.java:115-204 | each period query returns null for an empty history, otherwise the sorted punches of the period |
| EmployeeService.GetAllPunches | src/main/java/ghorned/timecapture/service/EmployeeService.java:165-168 | all the employee's punches, sorted by time |
| EmployeeService.PeriodFilterExact | src/main/java/ghorned/timecapture/service/EmployeeService.java:115-204 | a period query returns exactly the punches whose date passes its test, in history order |
| EmployeeService.PastWeekEmptyAtYearStart | src/main/java/ghorned/timecapture/service/EmployeeService.java:178-180 | when the day a week ago has a day-of-year number no smaller than today's, the past-week query selects nothing |
| EmployeeService.SplitHours | src/main/java/ghorned/timecapture/service/EmployeeService.java:215-219 | regular hours are at most 40, overtime is never negative, they add up to the total, and overtime is positive exactly above 40 |
| EmployeeService.BoundsFlag | src/main/java/ghorned/timecapture/service/EmployeeService.java:221-227 | "Hours out of bounds" exactly when a week total lies outside the closed range of the bounds, otherwise no flag |
| EmployeeService.MakeReport | src/main/java/ghorned/timecapture/service/EmployeeService.java:215-229 | each week's regular and overtime hours are `SplitHours` of its total (regular = the total up to 40, overtime the rest), and the flag is `BoundsFlag` of the two totals, set exactly for out-of-range totals |
| EmployeeService.WeeksReport | src/main/java/ghorned/timecapture/service/EmployeeService.java:207-256 | the report over two consecutive windows: fails with `IndexOutOfBounds` exactly when either week's sum fails; otherwise each week's regular and overtime hours add up to its total and the flag is the bounds flag of the two totals |
| EmployeeService.ReportForWeeks | src/main/java/ghorned/timecapture/service/EmployeeService.java:207-230 | the report over two consecutive windows of the sorted history, against the employee's unchanged bounds, failing when either window's sum fails; only punch lists may change, and only the found employee's |
| EmployeeService.GetPayPeriodReport | src/main/java/ghorned/timecapture/service/EmployeeService.java:207-230 | the report over `[now - 2 weeks, now - 1 week]` and `[now - 1 week, now]` |
| EmployeeService.GetPastPayPeriodReport | src/main/java/ghorned/timecapture/service/EmployeeService.java:233-256 | the report over `[now - 4 weeks, now - 3 weeks]` and `[now - 3 weeks, now - 2 weeks]` |
| EmployeeService.SharedBoundaryInBothWeeks | src/main/java/ghorned/timecapture/service/EmployeeService.java:210-213 | a punch exactly at the shared boundary of the two weeks is counted in both |
| EmployeeService.WidestBoundsNeverFlag | src/main/java/ghorned/timecapture/service/EmployeeService.java:221-227 | with bounds 0 and 168 a report over a sorted history is never flagged |
| PunchServices.IndexOf | src/main/java/ghorned/timecapture/service/PunchService.java:34-37 | the position of the first punch with that id, or -1 exactly when there is none |
| PunchServices.PunchService.constructor | src/main/java/ghorned/timecapture/service/PunchService.java:24-28 | an empty punch table over the given employees, with a valid identity column |
| PunchServices.PunchService.GetById | src/main/java/ghorned/timecapture/service/PunchService.java:34-37 | the stored punch with that id, or PunchNotFound exactly when none has it |
| PunchServices.PunchService.FindClash | src/main/java/ghorned/timecapture/service/PunchService.java:43-48 | a stored punch of that employee at exactly that time, absent exactly when there is none |
| PunchServices.PunchService.EmployeeExists | src/main/java/ghorned/timecapture/service/PunchService.java:51-52 | true exactly when an employee with that id is stored |
| PunchServices.PunchService.Add | src/main/java/ghorned/timecapture/service/PunchService.java:40-68 | a duplicate (employee, time) fails first, then a missing employee; otherwise one punch with a fresh id is appended, at the supplied time for an admin and at `now` otherwise; the admin path keeps times unique |
| PunchServices.PunchService.Update | src/main/java/ghorned/timecapture/service/PunchService.java:70-93 | a missing id fails, then any stored (employee, time) including the punch's own, then a missing employee; otherwise only that punch's employee and time are overwritten |
| PunchServices.PunchService.Delete | src/main/java/ghorned/timecapture/service/PunchService.java:95-99 | a missing id fails; otherwise exactly that punch is removed and returned, and no punch with its id remains |
| PunchServices.AppendKeepsNoDuplicates | src/main/java/ghorned/timecapture/service/PunchService.java:43-64 | appending a punch whose (employee, time) is not stored keeps times unique per employee |
| PunchServices.ReplaceKeepsNoDuplicates | src/main/java/ghorned/timecapture/service/PunchService.java:76-90 | overwriting one punch with an (employee, time) stored nowhere keeps times unique per employee |
| PunchServices.RemoveDropsId | src/main/java/ghorned/timecapture/service/PunchService.java:95-98 | removing one punch from a table with distinct ids removes exactly it and leaves no punch with its id |
| PunchServices.UserPunchCanDuplicate | src/main/java/ghorned/timecapture/service/PunchService.java:44-61 | running `Add` twice on a fresh table (an admin punch at 1000, then a non-admin request for the free time 500 at clock 1000) succeeds both times and stores two punches of one employee at 1000 |

## Left out

- The REST controllers, the security and OpenAPI configuration, and the `@PreAuthorize` rules: HTTP and framework wiring; the one authority test inside a service body (`Add`) is the `isAdmin` parameter.
- The repositories: modelled as sequences (employees in `findAll` order, punches in `findAll` order, employee ids); persistence, `save` and transactions are not modelled.
- The employees' punch lists and the punch table are separate in this model: the link between a stored punch and its employee's list (the JPA mapping) is not kept in sync by `Add`, `Update` or `Delete`.
- `EmployeeService` `getAll`, `add`, `update`, `delete`, `updatePassword` and `loadUserByUsername`: repository pass-throughs and copies of request fields, the password part through BCrypt, a foreign library.
- `PunchService.getAll`: returns the repository, which is the `punches` field.
- The clock: `now` is a parameter read once per call, where the code reads `LocalDateTime.now()` several times: once per punch in the filters, and separately for each window bound of the reports, so in the code the end of week one and the start of week two are two slightly different instants, while `SharedBoundaryInBothWeeks` is about one shared boundary.
- The calendar: the year, month and day of the year of a time come from a function parameter; `minusWeeks` is a subtraction of whole weeks of seconds.
- Floating point: the code accumulates `double` hours and rounds `new BigDecimal(double)`; the model sums exact whole minutes and rounds them exactly, so at a tie the source may round the other way by binary error. Report hours are exact `real` tenths.
- HoursWorked.WeekHrs: returns tenths of an hour as an integer rather than a `double` of hours.
- EmployeeService.EqualsIgnoreCase: folds the ASCII letters only, not the rest of Unicode.
- Sub-second times: a non-admin punch is stored at `LocalDateTime.now()`, which has a fraction of a second; `now` is whole seconds here, so the nanosecond comparison of `isEqual` and the truncation of gaps that include such a fraction by `toMinutes` are not modelled.
- Employees.Employee.SatisfiesConstraints: the bean-validation constraints are stated as a predicate; they are enforced by the framework on request input, which is not modelled, and `@PastOrPresent` on a punch time is not modelled.
- A punch refers to its employee by id, not by object reference; `Update` replaces a record in the table rather than mutating a shared entity, so aliasing of that entity with an employee's list is not modelled.
- Punches.SortByTime: stability (punches with equal times keep their relative order) is built into the definition but not stated as a lemma.
