/**
 * The hours an employee worked inside a closed window [start, end]
 * (utility/HoursWorked.java, getWeekHrs).
 *
 * The employee's punches, sorted by time, are split into those strictly
 * before `start` (excluded) and those inside the window (included). The
 * parity of those counts gives the employee's state at each end of the
 * window, and one of four pairings of the included punches sums the worked
 * minutes. The sum, in hours, is rounded half up to one decimal; here it is
 * kept as a whole number of tenths of an hour.
 */
module HoursWorked {
  import opened Outcomes
  import opened Punches
  import opened Employees

  /** Clocked in or clocked out. */
  datatype PunchStatus = IN | OUT

  /** The state after `count` punches: even counts are OUT, odd counts IN. */
  function StatusAfter(count: nat): PunchStatus
  {
    if count % 2 == 0 then OUT else IN
  }

  /** The state after `count` punches when every punch toggles the state,
      starting from OUT before the first punch. */
  function Toggled(count: nat): PunchStatus
  {
    if count == 0 then OUT
    else if Toggled(count - 1) == IN then OUT else IN
  }

  /** The parity rule is the toggle rule. */
  lemma {:induction false} StatusAfterIsToggled(count: nat)
    ensures StatusAfter(count) == Toggled(count)
  {
    if count > 0 {
      StatusAfterIsToggled(count - 1);
    }
  }

  /** Duration.between(from, to).toMinutes(): the whole minutes between two
      times, truncated toward zero. */
  function Minutes(from: int, to: int): int
  {
    if from <= to then (to - from) / 60 else -((from - to) / 60)
  }

  /** Minutes counts the complete minutes of a gap, dropping the seconds left
      over, and on a whole number of minutes drops nothing. */
  lemma MinutesBounds(from: int, to: int)
    ensures from <= to ==> 0 <= Minutes(from, to) && Minutes(from, to) * 60 <= to - from < Minutes(from, to) * 60 + 60
    ensures to < from ==> Minutes(from, to) <= 0 && -Minutes(from, to) * 60 <= from - to < -Minutes(from, to) * 60 + 60
    ensures from <= to && from % 60 == to % 60 ==> Minutes(from, to) * 60 == to - from
  {
  }

  /** The test for punches strictly before `start`. */
  function EarlierThan(start: int): int -> bool
  {
    t => t < start
  }

  /** The test for punches inside the closed window [start, end]. */
  function Between(start: int, end: int): int -> bool
  {
    t => start <= t <= end
  }

  /** The punches strictly before the window (excludedPunches). */
  function Before(ps: seq<Punch>, start: int): seq<Punch>
  {
    Select(ps, EarlierThan(start))
  }

  /** The punches inside the window, both ends included (includedPunches). */
  function Within(ps: seq<Punch>, start: int, end: int): seq<Punch>
  {
    Select(ps, Between(start, end))
  }

  /** Minutes of the shifts formed by pairing `ins` from its first punch:
      ins[0] to ins[1], ins[2] to ins[3], and so on; a last unpaired punch
      opens a shift that runs to `end`. */
  function PairedMinutes(ins: seq<Punch>, end: int): int
    decreases |ins|
  {
    if |ins| == 0 then 0
    else if |ins| == 1 then Minutes(ins[0].time, end)
    else Minutes(ins[0].time, ins[1].time) + PairedMinutes(ins[2..], end)
  }

  /** The minutes getWeekHrs adds up, before rounding. When the employee is
      OUT at `start`, the included punches pair up from the first; when IN,
      the first included punch closes the shift open at `start` and the rest
      pair up after it. IN at `start` with no included punch is the case in
      which the code reads the first element of an empty list. */
  function WindowMinutes(ps: seq<Punch>, start: int, end: int): (r: Result<int>)
    ensures r.Failure? ==> r.error == IndexOutOfBounds
    ensures r.Failure? ==> StatusAfter(|Before(ps, start)|) == IN && Within(ps, start, end) == []
  {
    var inside := Within(ps, start, end);
    if StatusAfter(|Before(ps, start)|) == OUT then Success(PairedMinutes(inside, end))
    else if inside == [] then Failure(IndexOutOfBounds)
    else Success(Minutes(start, inside[0].time) + PairedMinutes(inside[1..], end))
  }

  /** BigDecimal.setScale(1, HALF_UP) of m/60 hours, in tenths of an hour:
      the nearest tenth, a tie rounded away from zero. */
  function RoundHalfUpTenths(m: int): (t: int)
    ensures 0 <= m ==> 0 <= t && 6 * t - 3 <= m < 6 * t + 3
    ensures m < 0 ==> t <= 0 && 6 * t - 3 < m <= 6 * t + 3
  {
    if 0 <= m then (m + 3) / 6 else -((3 - m) / 6)
  }

  /** The result of getWeekHrs on punches already sorted by time, in tenths
      of an hour. */
  function WeekHrs(ps: seq<Punch>, start: int, end: int): (r: Result<int>)
    ensures r.Failure? <==> WindowMinutes(ps, start, end).Failure?
    ensures r.Failure? ==> r.error == IndexOutOfBounds
    ensures r.Success? && 0 <= WindowMinutes(ps, start, end).value ==>
              6 * r.value - 3 <= WindowMinutes(ps, start, end).value < 6 * r.value + 3
  {
    match WindowMinutes(ps, start, end)
    case Success(m) => Success(RoundHalfUpTenths(m))
    case Failure(e) => Failure(e)
  }

  /** getWeekHrs: the punches are sorted in place by the employee, then
      partitioned and paired. */
  method GetWeekHrs(employee: Employee, start: int, end: int) returns (r: Result<int>)
    modifies employee`punches
    ensures employee.punches == SortByTime(old(employee.punches))
    ensures r == WeekHrs(employee.punches, start, end)
  {
    var punches := employee.GetPunches();
    r := WeekHrsOf(punches, start, end);
  }

  /** The partition loop of getWeekHrs: the punches before the window and
      those inside it, each in the order of `punches`. */
  method Partition(punches: seq<Punch>, start: int, end: int)
    returns (excludedPunches: seq<Punch>, includedPunches: seq<Punch>)
    ensures excludedPunches == Before(punches, start)
    ensures includedPunches == Within(punches, start, end)
  {
    excludedPunches := [];
    includedPunches := [];
    for k := 0 to |punches|
      invariant excludedPunches == Before(punches[..k], start)
      invariant includedPunches == Within(punches[..k], start, end)
    {
      var punch := punches[k];
      assert punches[..k + 1] == punches[..k] + [punch];
      SelectAppend(punches[..k], punch, EarlierThan(start));
      SelectAppend(punches[..k], punch, Between(start, end));
      if punch.time < start {
        excludedPunches := excludedPunches + [punch];
      }
      if start <= punch.time && punch.time <= end {
        includedPunches := includedPunches + [punch];
      }
    }
    assert punches[..|punches|] == punches;
  }

  /** A pairing of odd length ends with the shift that runs to `end`. */
  lemma {:induction false} PairedMinutesOdd(ins: seq<Punch>, end: int)
    requires |ins| % 2 == 1
    ensures PairedMinutes(ins, end) == PairedMinutes(ins[..|ins| - 1], end) + Minutes(ins[|ins| - 1].time, end)
  {
    if |ins| > 1 {
      PairedMinutesOdd(ins[2..], end);
      assert ins[..|ins| - 1][2..] == ins[2..][..|ins| - 3];
    }
  }

  /** A pairing of even length has no shift left open, so its end does not matter. */
  lemma {:induction false} PairsOnly(ins: seq<Punch>, end: int, end': int)
    requires |ins| % 2 == 0
    ensures PairedMinutes(ins, end) == PairedMinutes(ins, end')
  {
    if |ins| > 0 {
      PairsOnly(ins[2..], end, end');
    }
  }

  /** One stride-2 loop of getWeekHrs: adds the minutes from ins[i] to
      ins[i+1] for i = first, first + 2, ... while i < stop. */
  method SumPairs(ins: seq<Punch>, first: nat, stop: nat) returns (minutes: int)
    requires first <= stop <= |ins| && (stop - first) % 2 == 0
    ensures minutes == PairedMinutes(ins[first..stop], 0)
  {
    minutes := 0;
    var i := first;
    while i < stop
      invariant first <= i <= stop && (stop - i) % 2 == 0
      invariant minutes + PairedMinutes(ins[i..stop], 0) == PairedMinutes(ins[first..stop], 0)
    {
      assert ins[i..stop][2..] == ins[i + 2..stop];
      minutes := minutes + Minutes(ins[i].time, ins[i + 1].time);
      i := i + 2;
    }
  }

  /** The minutes of a window, read off the two lists of its partition. */
  function PartitionMinutes(excluded: seq<Punch>, included: seq<Punch>, start: int, end: int): Result<int>
  {
    if |excluded| % 2 == 0 then Success(PairedMinutes(included, end))
    else if included == [] then Failure(IndexOutOfBounds)
    else Success(Minutes(start, included[0].time) + PairedMinutes(included[1..], end))
  }

  /** getWeekHrs: the partition, then the pairing, then the rounding. */
  method WeekHrsOf(punches: seq<Punch>, start: int, end: int) returns (r: Result<int>)
    ensures r == WeekHrs(punches, start, end)
  {
    var excludedPunches, includedPunches := Partition(punches, start, end);
    var minutes := PairIncluded(excludedPunches, includedPunches, start, end);
    assert minutes == WindowMinutes(punches, start, end);
    if minutes.Failure? {
      return Failure(minutes.error);
    }
    r := Success(RoundHalfUpTenths(minutes.value));
  }

  /** The boundary states of getWeekHrs by parity, and its four pairing
      loops over the included punches. */
  method PairIncluded(excludedPunches: seq<Punch>, includedPunches: seq<Punch>, start: int, end: int)
    returns (r: Result<int>)
    ensures r == PartitionMinutes(excludedPunches, includedPunches, start, end)
  {
    var startStatus := if |excludedPunches| % 2 == 0 then OUT else IN;
    var endStatus := if (|excludedPunches| + |includedPunches|) % 2 == 0 then OUT else IN;
    var n := |includedPunches|;

    var minutes := 0;
    if startStatus == OUT {
      if endStatus == OUT {
        // OUT -> OUT: an even number of included punches, paired from the first
        minutes := SumPairs(includedPunches, 0, n);
        PairsOnly(includedPunches, 0, end);
        assert includedPunches[0..n] == includedPunches;
      } else {
        // OUT -> IN: an odd number, paired from the first; the last runs to `end`
        minutes := SumPairs(includedPunches, 0, n - 1);
        minutes := minutes + Minutes(includedPunches[n - 1].time, end);
        PairedMinutesOdd(includedPunches, end);
        PairsOnly(includedPunches[..n - 1], 0, end);
        assert includedPunches[0..n - 1] == includedPunches[..n - 1];
      }
    } else {
      if n == 0 {
        // includedPunches.get(0) on an empty list
        return Failure(IndexOutOfBounds);
      }
      var rest := includedPunches[1..];
      if endStatus == IN {
        // IN -> IN: from `start` to the first, pairs from the second, the last runs to `end`
        minutes := minutes + Minutes(start, includedPunches[0].time);
        var inner := SumPairs(includedPunches, 1, n - 1);
        minutes := minutes + inner;
        minutes := minutes + Minutes(includedPunches[n - 1].time, end);
        PairedMinutesOdd(rest, end);
        PairsOnly(rest[..n - 2], 0, end);
        assert includedPunches[1..n - 1] == rest[..n - 2];
      } else {
        // IN -> OUT: from `start` to the first, then pairs from the second
        minutes := minutes + Minutes(start, includedPunches[0].time);
        var inner := SumPairs(includedPunches, 1, n);
        minutes := minutes + inner;
        PairsOnly(rest, 0, end);
        assert includedPunches[1..n] == rest;
      }
    }
    r := Success(minutes);
  }

  // ---------------------------------------------------------------------
  // What the sum measures: the time of the window covered by shifts.
  // ---------------------------------------------------------------------

  function Max(a: int, b: int): int { if a < b then b else a }

  function Min(a: int, b: int): int { if a < b then a else b }

  /** Seconds of [start, end] inside the shift [from, to]. */
  function Overlap(from: int, to: int, start: int, end: int): int
  {
    if Max(from, start) <= Min(to, end) then Min(to, end) - Max(from, start) else 0
  }

  /** Seconds of [start, end] inside a shift that began at `from` and is still open. */
  function OpenOverlap(from: int, start: int, end: int): int
  {
    if Max(from, start) <= end then end - Max(from, start) else 0
  }

  /** Seconds of [start, end] covered by the shifts of a whole punch history
      sorted by time: the punch at each even position opens a shift that the
      next punch closes, and a last punch at an even position opens a shift
      that has not been closed. */
  function Covered(ps: seq<Punch>, start: int, end: int): int
    decreases |ps|
  {
    if |ps| == 0 then 0
    else if |ps| == 1 then OpenOverlap(ps[0].time, start, end)
    else Overlap(ps[0].time, ps[1].time, start, end) + Covered(ps[2..], start, end)
  }

  /** Every punch time lies on a whole minute. */
  predicate OnWholeMinutes(ps: seq<Punch>)
  {
    forall i :: 0 <= i < |ps| ==> ps[i].time % 60 == 0
  }

  /** In a sorted history the punches before the window come first, those
      inside it next, and those after it last. */
  lemma SortedSplit(ps: seq<Punch>, start: int, end: int)
    requires SortedByTime(ps)
    ensures |Before(ps, start)| + |Within(ps, start, end)| <= |ps|
    ensures Before(ps, start) == ps[..|Before(ps, start)|]
    ensures Within(ps, start, end) == ps[|Before(ps, start)|..|Before(ps, start)| + |Within(ps, start, end)|]
    ensures forall i :: 0 <= i < |Before(ps, start)| ==> ps[i].time < start
    ensures forall i :: |Before(ps, start)| + |Within(ps, start, end)| <= i < |ps| ==> end < ps[i].time
  {
    SortedBefore(ps, start);
    var e := |Before(ps, start)|;
    var rest := ps[e..];
    assert ps == ps[..e] + rest;
    SelectConcat(ps[..e], rest, Between(start, end));
    SelectNone(ps[..e], Between(start, end));
    assert SortedByTime(rest);
    SortedWithin(rest, start, end);
    var n := |Within(rest, start, end)|;
    assert rest[..n] == ps[e..e + n];
    forall i | e + n <= i < |ps| ensures end < ps[i].time {
      assert ps[i] == rest[i - e];
    }
  }

  /** In a sorted history the punches before `start` are a prefix, and
      every later punch is at or after `start`. */
  lemma {:induction false} SortedBefore(ps: seq<Punch>, start: int)
    requires SortedByTime(ps)
    ensures Before(ps, start) == ps[..|Before(ps, start)|]
    ensures forall i :: 0 <= i < |Before(ps, start)| ==> ps[i].time < start
    ensures forall i :: |Before(ps, start)| <= i < |ps| ==> start <= ps[i].time
  {
    if ps != [] {
      var tail := ps[1..];
      assert SortedByTime(tail);
      SortedBefore(tail, start);
      if ps[0].time < start {
        assert Before(ps, start) == [ps[0]] + Before(tail, start);
      } else {
        NoneBefore(ps, start);
      }
    }
  }

  /** In a sorted history with no punch before `start`, the punches inside
      the window are a prefix, and every later punch is after `end`. */
  lemma {:induction false} SortedWithin(ps: seq<Punch>, start: int, end: int)
    requires SortedByTime(ps)
    requires forall i :: 0 <= i < |ps| ==> start <= ps[i].time
    ensures Within(ps, start, end) == ps[..|Within(ps, start, end)|]
    ensures forall i :: |Within(ps, start, end)| <= i < |ps| ==> end < ps[i].time
  {
    if ps != [] {
      var tail := ps[1..];
      assert SortedByTime(tail);
      SortedWithin(tail, start, end);
      if ps[0].time <= end {
        assert Within(ps, start, end) == [ps[0]] + Within(tail, start, end);
      } else {
        NoneWithin(ps, start, end);
      }
    }
  }

  /** A sorted history whose first punch is not before `start` has no punch before it. */
  lemma NoneBefore(ps: seq<Punch>, start: int)
    requires SortedByTime(ps) && ps != [] && start <= ps[0].time
    ensures Before(ps, start) == []
  {
    if Before(ps, start) != [] {
      var p := Before(ps, start)[0];
      SelectMember(ps, EarlierThan(start), p);
    }
  }

  /** A sorted history whose first punch is after `end` has no punch inside the window. */
  lemma NoneWithin(ps: seq<Punch>, start: int, end: int)
    requires SortedByTime(ps) && ps != [] && end < ps[0].time
    ensures Within(ps, start, end) == []
  {
    if Within(ps, start, end) != [] {
      var p := Within(ps, start, end)[0];
      SelectMember(ps, Between(start, end), p);
    }
  }

  /** Shifts that end before the window cover none of it. */
  lemma {:induction false} CoveredSkipsEarlyShifts(ps: seq<Punch>, k: nat, start: int, end: int)
    requires k <= |ps| && k % 2 == 0
    requires forall i :: 0 <= i < k ==> ps[i].time < start
    ensures Covered(ps, start, end) == Covered(ps[k..], start, end)
  {
    if k > 0 {
      CoveredSkipsEarlyShifts(ps[2..], k - 2, start, end);
      assert ps[2..][k - 2..] == ps[k..];
    }
  }

  /** Shifts that begin after the window cover none of it. */
  lemma {:induction false} CoveredAfterWindow(ps: seq<Punch>, start: int, end: int)
    requires forall i :: 0 <= i < |ps| ==> end < ps[i].time
    ensures Covered(ps, start, end) == 0
  {
    if |ps| > 1 {
      CoveredAfterWindow(ps[2..], start, end);
    }
  }

  /** Pairing the punches inside the window from the first one counts, in
      whole minutes, the time covered by the shifts from there on; exactly
      that time when every time is on a whole minute. */
  lemma {:induction false} PairedMinutesMeasureCoverage(ps: seq<Punch>, n: nat, start: int, end: int)
    requires SortedByTime(ps) && n <= |ps|
    requires forall i :: 0 <= i < n ==> start <= ps[i].time <= end
    requires forall i :: n <= i < |ps| ==> end < ps[i].time
    ensures 0 <= PairedMinutes(ps[..n], end)
    ensures PairedMinutes(ps[..n], end) * 60 <= Covered(ps, start, end)
    ensures OnWholeMinutes(ps[..n]) && end % 60 == 0 ==>
              PairedMinutes(ps[..n], end) * 60 == Covered(ps, start, end)
  {
    if n == 0 {
      CoveredAfterWindow(ps, start, end);
    } else if n == 1 {
      MinutesBounds(ps[0].time, end);
      assert ps[..1] == [ps[0]];
      if |ps| > 1 {
        CoveredAfterWindow(ps[2..], start, end);
      }
    } else {
      var tail := ps[2..];
      assert SortedByTime(tail);
      PairedMinutesMeasureCoverage(tail, n - 2, start, end);
      assert ps[..n][2..] == tail[..n - 2];
      MinutesBounds(ps[0].time, ps[1].time);
      assert OnWholeMinutes(ps[..n]) ==> OnWholeMinutes(tail[..n - 2]) && ps[..n][0].time % 60 == 0 && ps[..n][1].time % 60 == 0;
    }
  }

  /** The sum from a window that starts with the employee OUT: the punches
      inside pair up from the first one. */
  lemma CoverageFromOut(ps: seq<Punch>, e: nat, n: nat, start: int, end: int)
    requires SortedByTime(ps) && e % 2 == 0 && e + n <= |ps|
    requires forall i :: 0 <= i < e ==> ps[i].time < start
    requires forall i :: e <= i < e + n ==> start <= ps[i].time <= end
    requires forall i :: e + n <= i < |ps| ==> end < ps[i].time
    ensures 0 <= PairedMinutes(ps[e..e + n], end)
    ensures PairedMinutes(ps[e..e + n], end) * 60 <= Covered(ps, start, end)
    ensures OnWholeMinutes(ps) && end % 60 == 0 ==> PairedMinutes(ps[e..e + n], end) * 60 == Covered(ps, start, end)
  {
    CoveredSkipsEarlyShifts(ps, e, start, end);
    assert ps[e..][..n] == ps[e..e + n];
    assert SortedByTime(ps[e..]);
    assert OnWholeMinutes(ps) ==> OnWholeMinutes(ps[e..][..n]);
    PairedMinutesMeasureCoverage(ps[e..], n, start, end);
  }

  /** The sum from a window that starts with the employee IN: the first
      punch inside closes the shift that was open at `start`. */
  lemma {:induction false} CoverageFromIn(ps: seq<Punch>, e: nat, n: nat, start: int, end: int)
    requires SortedByTime(ps) && e % 2 == 1 && 0 < n && e + n <= |ps|
    requires forall i :: 0 <= i < e ==> ps[i].time < start
    requires forall i :: e <= i < e + n ==> start <= ps[i].time <= end
    requires forall i :: e + n <= i < |ps| ==> end < ps[i].time
    ensures 0 <= Minutes(start, ps[e].time) + PairedMinutes(ps[e + 1..e + n], end)
    ensures (Minutes(start, ps[e].time) + PairedMinutes(ps[e + 1..e + n], end)) * 60 <= Covered(ps, start, end)
    ensures OnWholeMinutes(ps) && start % 60 == 0 && end % 60 == 0 ==>
              (Minutes(start, ps[e].time) + PairedMinutes(ps[e + 1..e + n], end)) * 60 == Covered(ps, start, end)
  {
    CoveredSkipsEarlyShifts(ps, e - 1, start, end);
    var tail := ps[e + 1..];
    assert ps[e - 1..][2..] == tail;
    assert tail[..n - 1] == ps[e + 1..e + n];
    assert SortedByTime(tail);
    PairedMinutesMeasureCoverage(tail, n - 1, start, end);
    MinutesBounds(start, ps[e].time);
    assert OnWholeMinutes(ps) ==> OnWholeMinutes(tail[..n - 1]) && ps[e].time % 60 == 0;
  }

  /** The central property of getWeekHrs: on a sorted history, whenever it
      returns, the minutes it adds up are never negative and never more than
      the time of the window covered by shifts, and equal that time when every
      time is on a whole minute. */
  lemma {:induction false} WindowMinutesMeasureCoverage(ps: seq<Punch>, start: int, end: int)
    requires SortedByTime(ps)
    requires WindowMinutes(ps, start, end).Success?
    ensures 0 <= WindowMinutes(ps, start, end).value
    ensures WindowMinutes(ps, start, end).value * 60 <= Covered(ps, start, end)
    ensures OnWholeMinutes(ps) && start % 60 == 0 && end % 60 == 0 ==>
              WindowMinutes(ps, start, end).value * 60 == Covered(ps, start, end)
  {
    SortedSplit(ps, start, end);
    var e := |Before(ps, start)|;
    var n := |Within(ps, start, end)|;
    var inside := Within(ps, start, end);
    if e % 2 == 0 {
      assert inside == ps[e..e + n];
      CoverageFromOut(ps, e, n, start, end);
    } else {
      assert inside[1..] == ps[e + 1..e + n] && inside[0] == ps[e];
      CoverageFromIn(ps, e, n, start, end);
    }
  }

  /** On a sorted history the shifts from its first punch on cover no more
      of the window than lies at or after that punch. */
  lemma {:induction false} CoveredFromFirstPunch(ps: seq<Punch>, start: int, end: int)
    requires SortedByTime(ps) && ps != []
    ensures 0 <= Covered(ps, start, end) <= Max(0, end - Max(start, ps[0].time))
  {
    if |ps| > 2 {
      assert SortedByTime(ps[2..]);
      CoveredFromFirstPunch(ps[2..], start, end);
      assert ps[0].time <= ps[1].time <= ps[2].time;
    }
  }

  /** Shifts never overlap, so together they cover at most the window. */
  lemma CoveredWithinWindow(ps: seq<Punch>, start: int, end: int)
    requires SortedByTime(ps) && start <= end
    ensures 0 <= Covered(ps, start, end) <= end - start
  {
    if ps != [] {
      CoveredFromFirstPunch(ps, start, end);
    }
  }

  /** Seconds in a week: LocalDateTime.minusWeeks(1) moves back this far. */
  const SecondsPerWeek: int := 7 * 24 * 60 * 60

  /** On a sorted history the hours of a one-week window lie in [0, 168],
      the range the employee's weekly bounds are validated against. */
  lemma WeekHrsWithinWeek(ps: seq<Punch>, start: int)
    requires SortedByTime(ps)
    requires WeekHrs(ps, start, start + SecondsPerWeek).Success?
    ensures 0 <= WeekHrs(ps, start, start + SecondsPerWeek).value <= 1680
  {
    var end := start + SecondsPerWeek;
    WindowMinutesMeasureCoverage(ps, start, end);
    CoveredWithinWindow(ps, start, end);
    var m := WindowMinutes(ps, start, end).value;
    assert m <= 10080;
  }

  /** getWeekHrs fails exactly when the employee is IN at both ends of the
      window and no punch lies inside it, which on a sorted history is a
      shift that covers the whole window. */
  lemma CrashExactlyWhenShiftSpansWindow(ps: seq<Punch>, start: int, end: int)
    requires SortedByTime(ps) && start <= end
    ensures WindowMinutes(ps, start, end).Failure? <==>
              StatusAfter(|Before(ps, start)|) == IN &&
              StatusAfter(|Before(ps, start)| + |Within(ps, start, end)|) == IN &&
              Within(ps, start, end) == []
    ensures WindowMinutes(ps, start, end).Failure? ==> Covered(ps, start, end) == end - start
  {
    if WindowMinutes(ps, start, end).Failure? {
      SpanningShiftCoversWindow(ps, start, end);
    }
  }

  /** IN at `start` with no punch inside the window: the shift open at
      `start` is still open at `end`, or closes after it. */
  lemma SpanningShiftCoversWindow(ps: seq<Punch>, start: int, end: int)
    requires SortedByTime(ps) && start <= end
    requires |Before(ps, start)| % 2 == 1 && Within(ps, start, end) == []
    ensures Covered(ps, start, end) == end - start
  {
    var e := |Before(ps, start)|;
    SortedSplit(ps, start, end);
    CoveredSkipsEarlyShifts(ps, e - 1, start, end);
    if e < |ps| {
      assert ps[e - 1..][2..] == ps[e + 1..];
      CoveredAfterWindow(ps[e + 1..], start, end);
    }
  }

  /** The partition of getWeekHrs: a punch goes to the excluded list exactly
      when it is strictly before `start`, to the included list exactly when
      it lies in [start, end], and after `end` to neither. */
  lemma WindowPartition(ps: seq<Punch>, start: int, end: int, p: Punch)
    requires p in ps
    ensures p in Before(ps, start) <==> p.time < start
    ensures p in Within(ps, start, end) <==> start <= p.time <= end
    ensures start <= end < p.time ==> p !in Before(ps, start) && p !in Within(ps, start, end)
  {
    SelectMember(ps, EarlierThan(start), p);
    SelectMember(ps, Between(start, end), p);
  }

  /** A punch exactly at `start` or exactly at `end` is inside the window
      and not before it. */
  lemma BoundaryPunchIsInside(ps: seq<Punch>, start: int, end: int, p: Punch)
    requires p in ps && start <= end && (p.time == start || p.time == end)
    ensures p in Within(ps, start, end) && p !in Before(ps, start)
  {
    WindowPartition(ps, start, end, p);
  }

  /** Both partition lists keep the order of the history. */
  lemma PartitionKeepsOrder(ps: seq<Punch>, start: int, end: int)
    ensures IsSubsequence(Before(ps, start), ps)
    ensures IsSubsequence(Within(ps, start, end), ps)
  {
    SelectIsSubsequence(ps, EarlierThan(start));
    SelectIsSubsequence(ps, Between(start, end));
  }

  /** The states at the two ends of the window agree exactly when an even
      number of punches lies inside it; so the OUT->OUT and IN->IN pairings
      see an even count and the other two an odd one. */
  lemma BoundaryStatesParity(ps: seq<Punch>, start: int, end: int)
    ensures (StatusAfter(|Before(ps, start)|) == StatusAfter(|Before(ps, start)| + |Within(ps, start, end)|))
            <==> |Within(ps, start, end)| % 2 == 0
  {
  }

  /** A window that ends at or after the last punch ends in the employee's
      current state, the state after all their punches. */
  lemma EndStatusIsCurrentStatus(ps: seq<Punch>, start: int, end: int)
    requires forall i :: 0 <= i < |ps| ==> ps[i].time <= end
    ensures StatusAfter(|Before(ps, start)| + |Within(ps, start, end)|) == StatusAfter(|ps|)
  {
    SelectCounts(ps, EarlierThan(start), Between(start, end));
  }
}
