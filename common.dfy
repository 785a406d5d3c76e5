/** Values shared by every controller: identifiers, optional values, results,
    roles, the authenticated caller, and the two list combinators the
    controllers use everywhere (`Array.prototype.find` and `filter`). */
module Common {

  /** A document identifier (a MongoDB ObjectId); only ever compared for equality. */
  type Id = int

  /** A point in time, in milliseconds; only ever compared. */
  type Time = int

  datatype Option<T> = None | Some(value: T)

  /** The outcome of a handler: a payload, or the error response it sends. */
  datatype Result<T, E> = Success(value: T) | Failure(error: E)

  /** A user role. `Other` is a role string outside the schema enum, which
      `findByIdAndUpdate` stores because it does not run validators. */
  datatype Role = Admin | Manager | Employee | Guest | Other(name: string)

  /** `["admin", "manager"].includes(role)` */
  predicate IsLead(r: Role) { r == Admin || r == Manager }

  /** `["employee", "guest"].includes(role)` */
  predicate IsWorker(r: Role) { r == Employee || r == Guest }

  /** Reads a role string as the controllers compare it. */
  function ParseRole(s: string): (r: Role)
    ensures r.Other? <==> s !in {"admin", "manager", "employee", "guest"}
    ensures r.Other? ==> r.name == s
  {
    if s == "admin" then Admin
    else if s == "manager" then Manager
    else if s == "employee" then Employee
    else if s == "guest" then Guest
    else Other(s)
  }

  /** A JSON request field as the handlers' `== null` and `typeof` tests see it:
      missing or null, a number, or a value of another type. Where a handler
      converts the field with `Number()` or Mongoose casts it, `NonNumber` is a
      value that does not read as a number. */
  datatype Field = Absent | Number(value: real) | NonNumber

  /** The authenticated caller that the token middleware attaches as `req.user`. */
  datatype Actor = Actor(id: Id, role: Role, companyId: Option<Id>)

  /** JavaScript truthiness of an optional string: present and not empty. */
  predicate Truthy(s: Option<string>) { s.Some? && s.value != "" }

  /** The index of the first element satisfying `p` (`findIndex`, `find`, `findOne`). */
  function FirstWhere<T>(s: seq<T>, p: T -> bool): (r: Option<nat>)
    ensures r.Some? ==> r.value < |s| && p(s[r.value])
  {
    if s == [] then None
    else if p(s[0]) then Some(0)
    else match FirstWhere(s[1..], p)
      case None => None
      case Some(k) => Some(k + 1)
  }

  /** The index found is the first one that qualifies, and nothing is found
      exactly when no element qualifies. */
  lemma {:induction false} FirstWhereFirst<T>(s: seq<T>, p: T -> bool)
    ensures FirstWhere(s, p).Some? ==> forall k :: 0 <= k < FirstWhere(s, p).value ==> !p(s[k])
    ensures FirstWhere(s, p).None? <==> forall k :: 0 <= k < |s| ==> !p(s[k])
  {
    if s != [] {
      FirstWhereFirst(s[1..], p);
      assert forall k :: 1 <= k < |s| ==> s[k] == s[1..][k - 1];
    }
  }

  /** Two lists that agree, position by position, on `p` have the same first match. */
  lemma {:induction false} FirstWhereAgrees<T>(a: seq<T>, b: seq<T>, p: T -> bool)
    requires |a| == |b| && forall k :: 0 <= k < |a| ==> p(a[k]) == p(b[k])
    ensures FirstWhere(a, p) == FirstWhere(b, p)
  {
    if a != [] {
      FirstWhereAgrees(a[1..], b[1..], p);
    }
  }

  /** The elements satisfying `p`, in their original order (`Array.prototype.filter`). */
  function Filter<T>(s: seq<T>, p: T -> bool): (r: seq<T>)
    ensures |r| <= |s|
    ensures forall i :: 0 <= i < |r| ==> p(r[i])
    ensures forall i :: 0 <= i < |s| && p(s[i]) ==> s[i] in r
  {
    if s == [] then []
    else
      assert s == [s[0]] + s[1..];
      if p(s[0]) then [s[0]] + Filter(s[1..], p) else Filter(s[1..], p)
  }

  /** A value is kept exactly when it occurs and satisfies `p`. */
  lemma {:induction false} FilterMembers<T(!new)>(s: seq<T>, p: T -> bool)
    ensures forall x :: x in Filter(s, p) <==> x in s && p(x)
  {
    if s != [] {
      FilterMembers(s[1..], p);
      assert s == [s[0]] + s[1..];
    }
  }

  /** Filtering distributes over concatenation, so `Filter` keeps relative order. */
  lemma {:induction false} FilterAppend<T>(a: seq<T>, b: seq<T>, p: T -> bool)
    ensures Filter(a + b, p) == Filter(a, p) + Filter(b, p)
  {
    if a == [] {
      assert a + b == b;
    } else {
      assert (a + b)[1..] == a[1..] + b;
      FilterAppend(a[1..], b, p);
    }
  }

  /** A filter that every element passes is the identity. */
  lemma {:induction false} FilterKeepsAll<T>(s: seq<T>, p: T -> bool)
    requires forall i :: 0 <= i < |s| ==> p(s[i])
    ensures Filter(s, p) == s
  {
    if s != [] {
      FilterKeepsAll(s[1..], p);
    }
  }

  /** A filter that no element passes leaves nothing. */
  lemma {:induction false} FilterDropsAll<T>(s: seq<T>, p: T -> bool)
    requires forall i :: 0 <= i < |s| ==> !p(s[i])
    ensures Filter(s, p) == []
  {
    if s != [] {
      FilterDropsAll(s[1..], p);
    }
  }

  /** What a filter keeps and what its complement keeps together make up the whole. */
  lemma {:induction false} FilterSplits<T>(s: seq<T>, p: T -> bool, q: T -> bool)
    requires forall x :: q(x) == !p(x)
    ensures multiset(Filter(s, p)) + multiset(Filter(s, q)) == multiset(s)
  {
    if s != [] {
      var t := s[1..];
      FilterSplits(t, p, q);
      assert s == [s[0]] + t;
      assert q(s[0]) == !p(s[0]);
      if p(s[0]) {
        assert Filter(s, p) == [s[0]] + Filter(t, p);
      } else {
        assert Filter(s, q) == [s[0]] + Filter(t, q);
      }
    }
  }

  /** A filter keeps no element more often than the list holds it. */
  lemma {:induction false} FilterWithin<T>(s: seq<T>, p: T -> bool)
    ensures multiset(Filter(s, p)) <= multiset(s)
  {
    if s != [] {
      FilterWithin(s[1..], p);
      assert s == [s[0]] + s[1..];
    }
  }

  /** `s` without the element at index `i` (a `findByIdAndDelete`). */
  function RemoveAt<T>(s: seq<T>, i: nat): (r: seq<T>)
    requires i < |s|
    ensures |r| == |s| - 1
    ensures forall k :: 0 <= k < i ==> r[k] == s[k]
    ensures forall k :: i <= k < |r| ==> r[k] == s[k + 1]
  {
    s[..i] + s[i + 1..]
  }
}
