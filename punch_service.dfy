/**
 * The punch table and its guarded updates (service/PunchService.java):
 * lookup by id, add with the duplicate-time and employee-existence checks,
 * update and delete.
 *
 * The punch repository is a sequence of punches in findAll order, the
 * employee repository is the sequence of the stored employees' ids, and
 * `nextId` is the identity the table generates for the next saved punch.
 * Whether the caller holds the ADMIN authority and the clock reading are
 * parameters of Add.
 */
module PunchServices {
  import opened Outcomes
  import opened Punches

  /** The index of the first punch with that id, or -1 when there is none. */
  function IndexOf(ps: seq<Punch>, id: int): (k: int)
    ensures -1 <= k < |ps|
    ensures 0 <= k ==> ps[k].id == id && forall j :: 0 <= j < k ==> ps[j].id != id
    ensures k == -1 <==> forall j :: 0 <= j < |ps| ==> ps[j].id != id
  {
    if ps == [] then -1
    else if ps[0].id == id then 0
    else
      var k := IndexOf(ps[1..], id);
      if k < 0 then -1 else k + 1
  }

  /** Some stored punch belongs to that employee and has exactly that time. */
  predicate HasPunchAt(ps: seq<Punch>, employeeId: int, time: int)
  {
    exists i :: 0 <= i < |ps| && ps[i].employeeId == employeeId && ps[i].time == time
  }

  /** No employee has two punches at the same time. */
  predicate NoDuplicateTimes(ps: seq<Punch>)
  {
    forall i, j :: 0 <= i < j < |ps| ==> !(ps[i].employeeId == ps[j].employeeId && ps[i].time == ps[j].time)
  }

  /** No two punches share an id. */
  predicate DistinctIds(ps: seq<Punch>)
  {
    forall i, j :: 0 <= i < j < |ps| ==> ps[i].id != ps[j].id
  }

  class PunchService {
    /** The punch repository, in findAll order. */
    var punches: seq<Punch>
    /** The ids of the stored employees. */
    var employeeIds: seq<int>
    /** The id the table generates for the next saved punch. */
    var nextId: int

    /** The table's identity column: ids are distinct and below the next one. */
    predicate Valid()
      reads this
    {
      DistinctIds(punches) && forall i :: 0 <= i < |punches| ==> punches[i].id < nextId
    }

    /** An empty punch table over the given employees. */
    constructor (employeeIds: seq<int>)
      ensures Valid()
      ensures this.punches == [] && this.employeeIds == employeeIds && this.nextId == 1
    {
      this.punches := [];
      this.employeeIds := employeeIds;
      this.nextId := 1;
    }

    /** getById: the punch with that id, or PunchNotFound. */
    function GetById(id: int): (r: Result<Punch>)
      reads this
      ensures r.Success? ==> r.value in punches && r.value.id == id
      ensures r.Failure? <==> forall k :: 0 <= k < |punches| ==> punches[k].id != id
      ensures r.Failure? ==> r.error == PunchNotFound(id)
    {
      var k := IndexOf(punches, id);
      if k < 0 then Failure(PunchNotFound(id)) else Success(punches[k])
    }

    /** The duplicate scan of add and update: the first stored punch of that
        employee at exactly that time, if any. */
    method FindClash(employeeId: int, time: int) returns (clash: Option<Punch>)
      ensures clash.None? <==> !HasPunchAt(punches, employeeId, time)
      ensures clash.Some? ==> clash.value in punches && clash.value.employeeId == employeeId && clash.value.time == time
    {
      for k := 0 to |punches|
        invariant forall j :: 0 <= j < k ==> !(punches[j].employeeId == employeeId && punches[j].time == time)
      {
        if punches[k].employeeId == employeeId && punches[k].time == time {
          return Some(punches[k]);
        }
      }
      return None;
    }

    /** The existence scan of add and update over the employee repository. */
    method EmployeeExists(employeeId: int) returns (found: bool)
      ensures found <==> employeeId in employeeIds
    {
      for k := 0 to |employeeIds|
        invariant employeeId !in employeeIds[..k]
      {
        if employeeIds[k] == employeeId {
          return true;
        }
      }
      assert employeeIds[..|employeeIds|] == employeeIds;
      return false;
    }

    /** add: rejects a punch whose employee already has a punch at the
        supplied time (checked first), then one whose employee does not
        exist; otherwise stores one new punch for that employee, at the
        supplied time for an admin caller and at `now` for any other. */
    method Add(added: Punch, isAdmin: bool, now: int) returns (r: Result<Punch>)
      requires Valid()
      modifies this
      ensures Valid() && employeeIds == old(employeeIds)
      ensures HasPunchAt(old(punches), added.employeeId, added.time) ==>
                r == Failure(EmployeePunchAlreadyExists(added.time, added.employeeId)) &&
                punches == old(punches) && nextId == old(nextId)
      ensures !HasPunchAt(old(punches), added.employeeId, added.time) && added.employeeId !in employeeIds ==>
                r == Failure(EmployeeNotFound(added.employeeId)) && punches == old(punches) && nextId == old(nextId)
      ensures !HasPunchAt(old(punches), added.employeeId, added.time) && added.employeeId in employeeIds ==>
                r == Success(Punch(old(nextId), added.employeeId, if isAdmin then added.time else now)) &&
                punches == old(punches) + [r.value] && nextId == old(nextId) + 1
      ensures isAdmin && NoDuplicateTimes(old(punches)) ==> NoDuplicateTimes(punches)
    {
      var clash := FindClash(added.employeeId, added.time);
      if clash.Some? {
        return Failure(EmployeePunchAlreadyExists(clash.value.time, clash.value.employeeId));
      }
      var exists_ := EmployeeExists(added.employeeId);
      if !exists_ {
        return Failure(EmployeeNotFound(added.employeeId));
      }
      var created := Punch(nextId, added.employeeId, if isAdmin then added.time else now);
      if isAdmin && NoDuplicateTimes(punches) {
        AppendKeepsNoDuplicates(punches, created);
      }
      punches := punches + [created];
      nextId := nextId + 1;
      r := Success(created);
    }

    /** update: rejects a missing id, then any (employee, time) that is
        already stored (even by the punch being updated), then a missing
        employee; otherwise overwrites that punch's employee and time. */
    method Update(id: int, updated: Punch) returns (r: Result<Punch>)
      requires Valid()
      modifies this`punches
      ensures Valid()
      ensures old(GetById(id)).Failure? ==> r == Failure(PunchNotFound(id)) && punches == old(punches)
      ensures old(GetById(id)).Success? && HasPunchAt(old(punches), updated.employeeId, updated.time) ==>
                r == Failure(EmployeePunchAlreadyExists(updated.time, updated.employeeId)) && punches == old(punches)
      ensures old(GetById(id)).Success? && !HasPunchAt(old(punches), updated.employeeId, updated.time) &&
              updated.employeeId !in employeeIds ==>
                r == Failure(EmployeeNotFound(updated.employeeId)) && punches == old(punches)
      ensures old(GetById(id)).Success? && !HasPunchAt(old(punches), updated.employeeId, updated.time) &&
              updated.employeeId in employeeIds ==>
                r == Success(Punch(id, updated.employeeId, updated.time)) &&
                punches == old(punches)[IndexOf(old(punches), id) := r.value]
      ensures NoDuplicateTimes(old(punches)) ==> NoDuplicateTimes(punches)
    {
      var existing := GetById(id);
      if existing.Failure? {
        return Failure(existing.error);
      }
      var clash := FindClash(updated.employeeId, updated.time);
      if clash.Some? {
        return Failure(EmployeePunchAlreadyExists(clash.value.time, clash.value.employeeId));
      }
      var exists_ := EmployeeExists(updated.employeeId);
      if !exists_ {
        return Failure(EmployeeNotFound(updated.employeeId));
      }
      var k := IndexOf(punches, id);
      var changed := Punch(id, updated.employeeId, updated.time);
      ReplaceKeepsNoDuplicates(punches, k, changed);
      punches := punches[k := changed];
      r := Success(changed);
    }

    /** delete: removes the punch with that id and returns it, or throws
        PunchNotFound. */
    method Delete(id: int) returns (r: Result<Punch>)
      requires Valid()
      modifies this`punches
      ensures Valid()
      ensures old(GetById(id)).Failure? ==> r == Failure(PunchNotFound(id)) && punches == old(punches)
      ensures old(GetById(id)).Success? ==>
                var k := IndexOf(old(punches), id);
                r == Success(old(punches)[k]) && punches == old(punches)[..k] + old(punches)[k + 1..]
      ensures r.Success? ==> multiset(punches) + multiset{r.value} == multiset(old(punches)) &&
                             forall q :: q in punches ==> q.id != id
    {
      var existing := GetById(id);
      if existing.Failure? {
        return Failure(existing.error);
      }
      var k := IndexOf(punches, id);
      RemoveDropsId(punches, k);
      punches := punches[..k] + punches[k + 1..];
      r := Success(existing.value);
    }
  }

  /** Appending a punch whose (employee, time) is new keeps the times unique. */
  lemma AppendKeepsNoDuplicates(ps: seq<Punch>, p: Punch)
    requires NoDuplicateTimes(ps) && !HasPunchAt(ps, p.employeeId, p.time)
    ensures NoDuplicateTimes(ps + [p])
  {
  }

  /** Overwriting one punch with an (employee, time) that is stored nowhere
      keeps the times unique. */
  lemma ReplaceKeepsNoDuplicates(ps: seq<Punch>, k: int, p: Punch)
    requires 0 <= k < |ps| && !HasPunchAt(ps, p.employeeId, p.time)
    ensures NoDuplicateTimes(ps) ==> NoDuplicateTimes(ps[k := p])
  {
  }

  /** Removing the punch at `k` of a table with distinct ids removes exactly
      that punch, and no punch with its id is left. */
  lemma RemoveDropsId(ps: seq<Punch>, k: int)
    requires 0 <= k < |ps| && DistinctIds(ps)
    ensures multiset(ps[..k] + ps[k + 1..]) + multiset{ps[k]} == multiset(ps)
    ensures forall q :: q in ps[..k] + ps[k + 1..] ==> q.id != ps[k].id
    ensures DistinctIds(ps[..k] + ps[k + 1..])
  {
    assert ps == ps[..k] + [ps[k]] + ps[k + 1..];
    var rest := ps[..k] + ps[k + 1..];
    forall q | q in rest ensures q.id != ps[k].id {
      var i :| 0 <= i < |rest| && rest[i] == q;
      if i < k {
        assert rest[i] == ps[i];
      } else {
        assert rest[i] == ps[i + 1];
      }
    }
  }

  /** The duplicate check looks at the supplied time, but a non-admin punch
      is stored at `now`: an admin stores a punch at 1000, then the same
      employee, not an admin, asks for a punch at the free time 500 while
      the clock reads 1000, and the table ends up with two punches of that
      employee at 1000. */
  method UserPunchCanDuplicate() returns (first: Result<Punch>, second: Result<Punch>, stored: seq<Punch>)
    ensures first.Success? && second.Success?
    ensures stored == [Punch(1, 7, 1000), Punch(2, 7, 1000)]
    ensures !NoDuplicateTimes(stored)
  {
    var table := new PunchService([7]);
    first := table.Add(Punch(0, 7, 1000), true, 0);
    assert table.punches == [Punch(1, 7, 1000)];
    assert !HasPunchAt(table.punches, 7, 500);
    second := table.Add(Punch(0, 7, 500), false, 1000);
    stored := table.punches;
    assert stored[0].employeeId == stored[1].employeeId && stored[0].time == stored[1].time;
  }
}
