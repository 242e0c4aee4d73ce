/**
 * The employee entity (entity/Employee.java): its fields, the validation
 * constraints declared on them, its granted authority, and getPunches,
 * which sorts the employee's own punch list in place before returning it.
 */
module Employees {
  import opened Punches

  /** The two authorities an employee may hold (utility/AccessAuthority.java). */
  datatype AccessAuthority = USER | ADMIN

  /** `@NotBlank`: the text with every leading and trailing character up to
      U+0020 trimmed away is not empty, so some character is above U+0020. */
  predicate NotBlank(s: string)
  {
    exists i :: 0 <= i < |s| && s[i] > ' '
  }

  /** `String.trim` without its trailing half: drops every leading character
      up to U+0020. */
  function TrimStart(s: string): (t: string)
    ensures |t| <= |s| && t == s[|s| - |t|..]
    ensures t != [] ==> t[0] > ' '
    ensures forall i :: 0 <= i < |s| - |t| ==> s[i] <= ' '
  {
    if s != [] && s[0] <= ' ' then TrimStart(s[1..]) else s
  }

  /** Drops every trailing character up to U+0020. */
  function TrimEnd(s: string): (t: string)
    ensures |t| <= |s| && t == s[..|t|]
    ensures t != [] ==> t[|t| - 1] > ' '
    ensures forall i :: |t| <= i < |s| ==> s[i] <= ' '
  {
    if s != [] && s[|s| - 1] <= ' ' then TrimEnd(s[..|s| - 1]) else s
  }

  /** `String.trim`: drops leading and trailing characters up to U+0020. */
  function Trim(s: string): string
  {
    TrimEnd(TrimStart(s))
  }

  /** `@NotBlank` is checked as "the trimmed text is not empty"; that is
      exactly `NotBlank`. */
  lemma {:induction false} NotBlankIsNonEmptyTrim(s: string)
    ensures NotBlank(s) <==> Trim(s) != []
  {
    var t := TrimStart(s);
    if t != [] {
      assert TrimEnd(t) != [] by {
        assert t[0] > ' ';
      }
      assert s[|s| - |t|] == t[0];
    } else {
      forall i | 0 <= i < |s| ensures s[i] <= ' ' {
      }
    }
  }

  /** `String.length()`: the number of UTF-16 code units, two for a
      character above U+FFFF and one for any other. */
  function Utf16Length(s: string): (n: nat)
    ensures |s| <= n <= 2 * |s|
    ensures (forall i :: 0 <= i < |s| ==> s[i] < '\U{10000}') ==> n == |s|
  {
    if s == [] then 0
    else (if s[0] >= '\U{10000}' then 2 else 1) + Utf16Length(s[1..])
  }

  class Employee {
    const id: int
    var username: string
    var password: string
    var firstName: string
    var lastName: string
    var weekHrsMin: real
    var weekHrsMax: real
    var accessAuthority: AccessAuthority
    /** The punch list, in whatever order it was last left. */
    var punches: seq<Punch>

    /** The bean-validation constraints declared on the fields. */
    predicate SatisfiesConstraints()
      reads this
    {
      && NotBlank(username)
      && NotBlank(password) && 8 <= Utf16Length(password) <= 72
      && NotBlank(firstName)
      && NotBlank(lastName)
      && 0.0 <= weekHrsMin <= 168.0
      && 0.0 <= weekHrsMax <= 168.0
    }

    constructor (id: int, username: string, password: string, firstName: string, lastName: string,
                 weekHrsMin: real, weekHrsMax: real, accessAuthority: AccessAuthority, punches: seq<Punch>)
      ensures this.id == id && this.username == username && this.password == password
      ensures this.firstName == firstName && this.lastName == lastName
      ensures this.weekHrsMin == weekHrsMin && this.weekHrsMax == weekHrsMax
      ensures this.accessAuthority == accessAuthority && this.punches == punches
    {
      this.id := id;
      this.username := username;
      this.password := password;
      this.firstName := firstName;
      this.lastName := lastName;
      this.weekHrsMin := weekHrsMin;
      this.weekHrsMax := weekHrsMax;
      this.accessAuthority := accessAuthority;
      this.punches := punches;
    }

    /** Sorts the punch list by time, in place, with the library's stable
        sort, and returns the list itself. A list that is already sorted is
        left as it is, so a second call returns the same order. */
    method GetPunches() returns (r: seq<Punch>)
      modifies this`punches
      ensures punches == SortByTime(old(punches))
      ensures SortedByTime(punches) && multiset(punches) == multiset(old(punches))
      ensures SortedByTime(old(punches)) ==> punches == old(punches)
      ensures r == punches
    {
      if SortedByTime(punches) {
        SortByTimeKeepsSorted(punches);
      }
      punches := SortByTime(punches);
      r := punches;
    }

    /** The granted authorities: the employee's one access authority. */
    function Authorities(): (r: set<AccessAuthority>)
      reads this
      ensures accessAuthority in r && |r| == 1
    {
      {accessAuthority}
    }
  }
}
