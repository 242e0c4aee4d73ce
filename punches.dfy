/**
 * Punches (entity/Punch.java) and the list operations the rest of the model
 * uses on an employee's punches: the order-preserving selection that every
 * filter of the services is an instance of, and the sort by time that
 * Employee.getPunches applies.
 *
 * A punch has no IN/OUT field: whether it is a clock-in or a clock-out
 * follows only from its position in the employee's time-sorted list.
 */
module Punches {

  /** A punch: its identity, the id of the employee it belongs to and its
      time, in whole seconds (the time is stored at second resolution). */
  datatype Punch = Punch(id: int, employeeId: int, time: int)

  /** Ascending by time; punches with equal times may sit in either order. */
  predicate SortedByTime(ps: seq<Punch>)
  {
    forall i, j :: 0 <= i < j < |ps| ==> ps[i].time <= ps[j].time
  }

  /** The punches of `ps` whose time satisfies `keep`, in their order in `ps`. */
  function Select(ps: seq<Punch>, keep: int -> bool): (r: seq<Punch>)
    ensures |r| <= |ps|
    ensures forall i :: 0 <= i < |r| ==> keep(r[i].time)
  {
    if ps == [] then []
    else (if keep(ps[0].time) then [ps[0]] else []) + Select(ps[1..], keep)
  }

  /** `a` can be obtained from `b` by deleting elements: `a` keeps the order of `b`. */
  predicate IsSubsequence(a: seq<Punch>, b: seq<Punch>)
    decreases |b|
  {
    if a == [] then true
    else if b == [] then false
    else if a[0] == b[0] then IsSubsequence(a[1..], b[1..])
    else IsSubsequence(a, b[1..])
  }

  /** Select keeps exactly the punches whose time satisfies the test. */
  lemma {:induction false} SelectMember(ps: seq<Punch>, keep: int -> bool, p: Punch)
    ensures p in Select(ps, keep) <==> p in ps && keep(p.time)
  {
    if ps != [] {
      SelectMember(ps[1..], keep, p);
      assert ps == [ps[0]] + ps[1..];
    }
  }

  /** Select keeps the order of its input. */
  lemma {:induction false} SelectIsSubsequence(ps: seq<Punch>, keep: int -> bool)
    ensures IsSubsequence(Select(ps, keep), ps)
  {
    if ps != [] {
      SelectIsSubsequence(ps[1..], keep);
      var rest := Select(ps[1..], keep);
      if keep(ps[0].time) {
        assert Select(ps, keep) == [ps[0]] + rest;
        assert ([ps[0]] + rest)[1..] == rest;
      } else {
        assert Select(ps, keep) == rest;
        SubsequenceSkip(rest, ps);
      }
    }
  }

  /** A subsequence of the tail is a subsequence of the whole list. */
  lemma {:induction false} SubsequenceSkip(a: seq<Punch>, b: seq<Punch>)
    requires b != []
    requires IsSubsequence(a, b[1..])
    ensures IsSubsequence(a, b)
    decreases |b|, |a|
  {
    if a != [] && a[0] == b[0] {
      // the greedy match of a[0] against b[0] leaves a[1..] to match in b[1..]
      SubsequenceTail(a, b[1..]);
    }
  }

  /** Dropping the first element keeps a subsequence a subsequence. */
  lemma {:induction false} SubsequenceTail(a: seq<Punch>, b: seq<Punch>)
    requires a != []
    requires IsSubsequence(a, b)
    ensures IsSubsequence(a[1..], b)
    decreases |b|, |a|
  {
    assert b != [];
    if a[0] == b[0] {
      SubsequenceSkip(a[1..], b);
    } else {
      SubsequenceTail(a, b[1..]);
      SubsequenceSkip(a[1..], b);
    }
  }

  /** Selecting from a list extended by one punch extends the selection by
      that punch exactly when it passes the test. */
  lemma {:induction false} SelectAppend(ps: seq<Punch>, p: Punch, keep: int -> bool)
    ensures Select(ps + [p], keep) == Select(ps, keep) + (if keep(p.time) then [p] else [])
  {
    if ps == [] {
      assert [] + [p] == [p];
    } else {
      assert (ps + [p])[0] == ps[0];
      assert (ps + [p])[1..] == ps[1..] + [p];
      SelectAppend(ps[1..], p, keep);
    }
  }

  /** Selecting from a concatenation selects from each part. */
  lemma {:induction false} SelectConcat(a: seq<Punch>, b: seq<Punch>, keep: int -> bool)
    ensures Select(a + b, keep) == Select(a, keep) + Select(b, keep)
  {
    if a != [] {
      SelectConcat(a[1..], b, keep);
      assert (a + b)[0] == a[0];
      assert (a + b)[1..] == a[1..] + b;
    } else {
      assert a + b == b;
    }
  }

  /** A list none of whose punches passes the test selects nothing. */
  lemma {:induction false} SelectNone(ps: seq<Punch>, keep: int -> bool)
    requires forall i :: 0 <= i < |ps| ==> !keep(ps[i].time)
    ensures Select(ps, keep) == []
  {
    if ps != [] {
      SelectNone(ps[1..], keep);
    }
  }

  /** Two tests that never hold together select, between them, at most
      every punch once; when every time passes one of them, exactly once. */
  lemma {:induction false} SelectCounts(ps: seq<Punch>, keep: int -> bool, other: int -> bool)
    requires forall t :: !(keep(t) && other(t))
    ensures |Select(ps, keep)| + |Select(ps, other)| <= |ps|
    ensures (forall i :: 0 <= i < |ps| ==> keep(ps[i].time) || other(ps[i].time)) ==>
              |Select(ps, keep)| + |Select(ps, other)| == |ps|
  {
    if ps != [] {
      SelectCounts(ps[1..], keep, other);
      assert forall i :: 0 <= i < |ps[1..]| ==> ps[1..][i] == ps[i + 1];
    }
  }

  /** Inserts `p` into a list after every leading punch whose time is not
      later than its own, so punches with equal times keep their order. */
  function InsertByTime(s: seq<Punch>, p: Punch): (r: seq<Punch>)
    ensures multiset(r) == multiset(s) + multiset{p}
  {
    if s == [] || p.time < s[0].time then [p] + s
    else
      assert s == [s[0]] + s[1..];
      [s[0]] + InsertByTime(s[1..], p)
  }

  /** Insertion into a sorted list gives a sorted list. */
  lemma {:induction false} InsertByTimeSorted(s: seq<Punch>, p: Punch)
    requires SortedByTime(s)
    ensures SortedByTime(InsertByTime(s, p))
  {
    if s != [] && s[0].time <= p.time {
      var rest := InsertByTime(s[1..], p);
      InsertByTimeSorted(s[1..], p);
      forall k | 0 <= k < |rest| ensures s[0].time <= rest[k].time {
        assert rest[k] in multiset(rest);
        assert rest[k] == p || rest[k] in multiset(s[1..]);
      }
    }
  }

  /** The list sorted by time with a stable sort: insertion of each punch in turn. */
  function SortByTime(s: seq<Punch>): (r: seq<Punch>)
    ensures SortedByTime(r)
    ensures multiset(r) == multiset(s)
  {
    if s == [] then []
    else
      assert s == s[..|s| - 1] + [s[|s| - 1]];
      var init := SortByTime(s[..|s| - 1]);
      InsertByTimeSorted(init, s[|s| - 1]);
      InsertByTime(init, s[|s| - 1])
  }

  /** A punch at least as late as every punch of a sorted list goes to its end. */
  lemma {:induction false} InsertLatest(s: seq<Punch>, p: Punch)
    requires forall i :: 0 <= i < |s| ==> s[i].time <= p.time
    ensures InsertByTime(s, p) == s + [p]
  {
    if s != [] {
      InsertLatest(s[1..], p);
      assert s == [s[0]] + s[1..];
    }
  }

  /** Sorting a sorted list changes nothing, so sorting twice is sorting once. */
  lemma {:induction false} SortByTimeKeepsSorted(s: seq<Punch>)
    requires SortedByTime(s)
    ensures SortByTime(s) == s
  {
    if s != [] {
      var init := s[..|s| - 1];
      assert SortedByTime(init);
      SortByTimeKeepsSorted(init);
      InsertLatest(init, s[|s| - 1]);
      assert init + [s[|s| - 1]] == s;
    }
  }
}
