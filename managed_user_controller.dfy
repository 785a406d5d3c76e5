/** The managed-user handlers (controllers/managedUserController.js): batch
    creation of users by an admin or manager, the role-ranked listing of a
    company's users, and the guard chains of updating and deleting a user.

    The token middleware sets `req.user.id` to the user's ObjectId itself, not
    to its string form. Three comparisons in this controller test that object
    with `===` against a string, which never holds; `StrictlyEqualsObjectId`
    stands for them. */
module ManagedUserController {
  import opened Common
  import opened Models
  import opened Store

  datatype ManagedUserError =
    | NotLead
    | EmailTaken(email: string)
    | OnlyAdminsUpdate
    | SelfUpdate
    | TargetIsAdmin
    | OtherCompany
    | OnlyAdminsDelete
    | SelfDelete
    | UserNotFound
    | InvalidToken
    | NoUsers
    | ServerError
  {
    function Status(): nat {
      match this
      case EmailTaken(_) => 400
      case SelfUpdate => 400
      case UserNotFound => 404
      case NoUsers => 404
      case InvalidToken => 401
      case ServerError => 500
      case _ => 403
    }
  }

  /** `x === objectId` where `x` is a string and `objectId` the ObjectId held in
      `req.user.id`. Strict equality compares types before values, and a string
      is never strictly equal to an object, so the result is false whatever
      the two ids are; the parameters only show what the source compares. */
  predicate StrictlyEqualsObjectId(x: Id, objectId: Id) {
    false
  }

  /** The caller's own record, re-read from the store, is an admin or a manager.
      A caller without a record dereferences null and gets a 500. */
  function CallerMayEnrol(users: seq<User>, actor: Actor): (r: Result<(), ManagedUserError>)
    ensures r.Success? ==> UserAt(users, actor.id).Some? && IsLead(users[UserAt(users, actor.id).value].role)
  {
    match UserAt(users, actor.id)
    case None => Failure(ServerError)
    case Some(k) => if IsLead(users[k].role) then Success(()) else Failure(NotLead)
  }

  // ---------------------------------------------------------------------------
  // createManagedUser
  // ---------------------------------------------------------------------------

  /** One entry of the request's `users` array; `role` is the raw string, if sent. */
  datatype NewUser = NewUser(username: string, email: string, password: string, role: Option<string>, companyId: Option<Id>)

  /** The store after a batch, the next fresh id, and the response. */
  datatype Enrollment = Enrollment(users: seq<User>, next: Id, outcome: Result<(), ManagedUserError>)

  /** One iteration of the batch loop: refused with 400 when the email is
      taken; otherwise the password is hashed and the user saved, which the
      schema refuses (500) for an empty username or email or a role outside
      its enum. A missing role defaults to guest. The new user's company is
      whatever the entry names. */
  function Admitted(users: seq<User>, n: NewUser, hash: string -> string, id: Id): (r: Result<User, ManagedUserError>)
    ensures r.Success? ==> r.value.id == id && r.value.email == n.email && r.value.companyId == n.companyId
  {
    if EmailOwner(users, n.email).Some? then Failure(EmailTaken(n.email))
    else if n.username == "" || n.email == "" then Failure(ServerError)
    else
      var role := if n.role.None? then Guest else ParseRole(n.role.value);
      if role.Other? then Failure(ServerError)
      else Success(User(id, n.username, n.email, hash(n.password), role, n.companyId))
  }

  /** The batch loop: entries are saved one at a time, and the first refused
      entry ends the request, leaving the entries before it saved. */
  function Enrolled(users: seq<User>, batch: seq<NewUser>, hash: string -> string, next: Id): (r: Enrollment)
    ensures |users| <= |r.users| <= |users| + |batch|
    decreases |batch|
  {
    if batch == [] then Enrollment(users, next, Success(()))
    else match Admitted(users, batch[0], hash, next)
      case Failure(e) => Enrollment(users, next, Failure(e))
      case Success(u) => Enrolled(users + [u], batch[1..], hash, next + 1)
  }

  /** The whole handler: the caller check, then the batch loop. */
  function Enrolment(users: seq<User>, actor: Actor, batch: seq<NewUser>, hash: string -> string, next: Id): Enrollment {
    match CallerMayEnrol(users, actor)
    case Failure(e) => Enrollment(users, next, Failure(e))
    case Success(_) => Enrolled(users, batch, hash, next)
  }

  method CreateManagedUser(db: Database, actor: Actor, batch: seq<NewUser>, hash: string -> string)
    returns (r: Result<(), ManagedUserError>)
    modifies db`users, db`nextId
    ensures var e := Enrolment(old(db.users), actor, batch, hash, old(db.nextId));
      r == e.outcome && db.users == e.users && db.nextId == e.next
  {
    var check := CallerMayEnrol(db.users, actor);
    if check.Failure? {
      return Failure(check.error);
    }
    ghost var goal := Enrolled(db.users, batch, hash, db.nextId);
    var i := 0;
    while i < |batch|
      invariant 0 <= i <= |batch|
      invariant Enrolled(db.users, batch[i..], hash, db.nextId) == goal
    {
      assert batch[i..][1..] == batch[i + 1..];
      var verdict := Admitted(db.users, batch[i], hash, db.nextId);
      if verdict.Failure? {
        return Failure(verdict.error);
      }
      var id := db.FreshId();
      db.users := db.users + [verdict.value];
      i := i + 1;
    }
    r := Success(());
  }

  /** The batch keeps the stored users in front and saves a prefix of its
      entries, with consecutive fresh ids; the request succeeds exactly when
      every entry was saved, and otherwise the first unsaved entry is the one
      whose refusal is the response. */
  lemma {:induction false} EnrolledSavesPrefix(users: seq<User>, batch: seq<NewUser>, hash: string -> string, next: Id)
    ensures var e := Enrolled(users, batch, hash, next);
      && e.users[..|users|] == users
      && e.next == next + (|e.users| - |users|)
      && (e.outcome.Success? <==> |e.users| == |users| + |batch|)
      && (e.outcome.Failure? ==>
            Admitted(e.users, batch[|e.users| - |users|], hash, e.next) == Failure(e.outcome.error))
    decreases |batch|
  {
    if batch != [] {
      match Admitted(users, batch[0], hash, next)
      case Failure(_) =>
      case Success(u) =>
        var e := Enrolled(users + [u], batch[1..], hash, next + 1);
        EnrolledSavesPrefix(users + [u], batch[1..], hash, next + 1);
        assert e.users[..|users|] == e.users[..|users| + 1][..|users|];
        if e.outcome.Failure? {
          assert batch[|e.users| - |users|] == batch[1..][|e.users| - |users + [u]|];
        }
    }
  }

  /** The saved user at offset `k` is entry `k`, admitted against the store as
      it stood after the entries before it. */
  lemma {:induction false} EnrolledEntry(users: seq<User>, batch: seq<NewUser>, hash: string -> string, next: Id, k: nat)
    requires k < |Enrolled(users, batch, hash, next).users| - |users|
    ensures var e := Enrolled(users, batch, hash, next);
      Admitted(e.users[..|users| + k], batch[k], hash, next + k) == Success(e.users[|users| + k])
    decreases |batch|
  {
    var u := Admitted(users, batch[0], hash, next).value;
    var e := Enrolled(users + [u], batch[1..], hash, next + 1);
    EnrolledSavesPrefix(users + [u], batch[1..], hash, next + 1);
    if k == 0 {
      assert e.users[..|users|] == e.users[..|users| + 1][..|users|] == users;
      assert e.users[|users|] == e.users[..|users| + 1][|users|] == u;
    } else {
      EnrolledEntry(users + [u], batch[1..], hash, next + 1, k - 1);
      assert batch[k] == batch[1..][k - 1];
    }
  }

  /** A batch never makes two users share an email. */
  lemma {:induction false} EnrolledKeepsEmailsUnique(users: seq<User>, batch: seq<NewUser>, hash: string -> string, next: Id)
    requires UniqueEmails(users)
    ensures UniqueEmails(Enrolled(users, batch, hash, next).users)
    decreases |batch|
  {
    if batch != [] {
      match Admitted(users, batch[0], hash, next)
      case Failure(_) =>
      case Success(u) =>
        FreshEmailKeepsUnique(users, u);
        EnrolledKeepsEmailsUnique(users + [u], batch[1..], hash, next + 1);
    }
  }

  /** Two entries with the same email: the first is saved, the second is
      refused with 400, and the first stays saved. */
  lemma EarlierDuplicateStaysSaved(users: seq<User>, a: NewUser, b: NewUser, hash: string -> string, next: Id)
    requires a.email == b.email
    requires Admitted(users, a, hash, next).Success?
    ensures Enrolled(users, [a, b], hash, next) ==
      Enrollment(users + [Admitted(users, a, hash, next).value], next + 1, Failure(EmailTaken(a.email)))
  {
    var u := Admitted(users, a, hash, next).value;
    assert (users + [u])[|users|].email == b.email;
    assert EmailOwner(users + [u], b.email).Some? by {
      FirstWhereFirst(users + [u], (x: User) => x.email == b.email);
    }
    assert [a, b][1..] == [b];
    assert [b][1..] == [];
  }

  /** Nothing is saved unless the caller's stored role is admin or manager. */
  lemma EnrolmentNeedsLead(users: seq<User>, actor: Actor, batch: seq<NewUser>, hash: string -> string, next: Id)
    ensures Enrolment(users, actor, batch, hash, next).users != users ==>
      exists k :: 0 <= k < |users| && users[k].id == actor.id && IsLead(users[k].role)
  {
    if CallerMayEnrol(users, actor).Success? {
      var k := UserAt(users, actor.id).value;
      assert users[k].id == actor.id && IsLead(users[k].role);
    }
  }

  // ---------------------------------------------------------------------------
  // getAllManagedUsers: the rank sort
  // ---------------------------------------------------------------------------

  /** The rank table of the sort; a role outside it ranks 5. */
  function Rank(r: Role): (n: nat)
    ensures 1 <= n <= 5
    ensures n == 5 <==> r.Other?
  {
    match r
    case Admin => 1
    case Manager => 2
    case Employee => 3
    case Guest => 4
    case Other(_) => 5
  }

  function RankIs(k: nat): User -> bool {
    (u: User) => Rank(u.role) == k
  }

  /** `u` placed before the first user of `t` ranked at or after it. */
  function Insert(u: User, t: seq<User>): (r: seq<User>)
    ensures |r| == |t| + 1
  {
    if t == [] || Rank(t[0].role) >= Rank(u.role) then [u] + t
    else [t[0]] + Insert(u, t[1..])
  }

  /** `allUsers.sort` with the rank comparator. `Array.prototype.sort` is
      stable, and every stable sort by rank has this one result. */
  function SortedByRank(s: seq<User>): (r: seq<User>)
    ensures |r| == |s|
  {
    if s == [] then [] else Insert(s[0], SortedByRank(s[1..]))
  }

  predicate RankOrdered(s: seq<User>) {
    forall i, j :: 0 <= i < j < |s| ==> Rank(s[i].role) <= Rank(s[j].role)
  }

  /** A user ranked at or before every user of a rank-ordered list may head it. */
  lemma RankedCons(x: User, t: seq<User>)
    requires forall i :: 0 <= i < |t| ==> Rank(x.role) <= Rank(t[i].role)
    requires RankOrdered(t)
    ensures RankOrdered([x] + t)
  {
    forall i, j | 0 <= i < j < |[x] + t| ensures Rank(([x] + t)[i].role) <= Rank(([x] + t)[j].role) {
      assert ([x] + t)[j] == t[j - 1];
      if i > 0 {
        assert ([x] + t)[i] == t[i - 1];
      }
    }
  }

  lemma {:induction false} InsertKeeps(u: User, t: seq<User>)
    ensures multiset(Insert(u, t)) == multiset{u} + multiset(t)
    ensures |Insert(u, t)| == |t| + 1
  {
    if !(t == [] || Rank(t[0].role) >= Rank(u.role)) {
      InsertKeeps(u, t[1..]);
      assert t == [t[0]] + t[1..];
    }
  }

  lemma {:induction false} InsertOrdered(u: User, t: seq<User>)
    requires RankOrdered(t)
    ensures RankOrdered(Insert(u, t))
  {
    if t == [] || Rank(t[0].role) >= Rank(u.role) {
      RankedCons(u, t);
    } else {
      var rest := Insert(u, t[1..]);
      InsertOrdered(u, t[1..]);
      InsertKeeps(u, t[1..]);
      forall i | 0 <= i < |rest| ensures Rank(t[0].role) <= Rank(rest[i].role) {
        assert rest[i] in multiset(rest);
        if rest[i] != u {
          var j :| 0 <= j < |t[1..]| && t[1..][j] == rest[i];
          assert t[1..][j] == t[j + 1];
        }
      }
      RankedCons(t[0], rest);
    }
  }

  /** Inserting `u` leaves every rank's users in their order, with `u` first among its own. */
  lemma {:induction false} InsertStable(u: User, t: seq<User>, k: nat)
    ensures Filter(Insert(u, t), RankIs(k)) ==
      if Rank(u.role) == k then [u] + Filter(t, RankIs(k)) else Filter(t, RankIs(k))
  {
    if t == [] || Rank(t[0].role) >= Rank(u.role) {
      assert ([u] + t)[1..] == t;
    } else {
      InsertStable(u, t[1..], k);
      assert ([t[0]] + Insert(u, t[1..]))[1..] == Insert(u, t[1..]);
    }
  }

  lemma {:induction false} SortedByRankKeeps(s: seq<User>)
    ensures multiset(SortedByRank(s)) == multiset(s)
    ensures |SortedByRank(s)| == |s|
  {
    if s != [] {
      SortedByRankKeeps(s[1..]);
      InsertKeeps(s[0], SortedByRank(s[1..]));
      assert s == [s[0]] + s[1..];
    }
  }

  lemma {:induction false} SortedByRankOrdered(s: seq<User>)
    ensures RankOrdered(SortedByRank(s))
  {
    if s != [] {
      SortedByRankOrdered(s[1..]);
      InsertOrdered(s[0], SortedByRank(s[1..]));
    }
  }

  /** The sort puts lower ranks first and keeps every user exactly as often as stored. */
  lemma SortedByRankSorts(s: seq<User>)
    ensures RankOrdered(SortedByRank(s))
    ensures multiset(SortedByRank(s)) == multiset(s)
    ensures |SortedByRank(s)| == |s|
    ensures forall u :: u in SortedByRank(s) <==> u in s
  {
    SortedByRankKeeps(s);
    SortedByRankOrdered(s);
    assert forall u :: u in SortedByRank(s) <==> u in multiset(SortedByRank(s));
  }

  /** The sort is stable: the users of each rank keep their stored order. */
  lemma {:induction false} SortedByRankStable(s: seq<User>, k: nat)
    ensures Filter(SortedByRank(s), RankIs(k)) == Filter(s, RankIs(k))
  {
    if s != [] {
      SortedByRankStable(s[1..], k);
      InsertStable(s[0], SortedByRank(s[1..]), k);
    }
  }

  // ---------------------------------------------------------------------------
  // getAllManagedUsers: the listing
  // ---------------------------------------------------------------------------

  /** The response body: the company's users sorted by rank, and the two pick lists. */
  datatype Listing = Listing(allUsers: seq<User>, assignBy: seq<User>, assignTo: seq<User>)

  /** `User.find({ companyId })` followed by the sort. */
  function CompanyUsers(users: seq<User>, companyId: Option<Id>): seq<User> {
    SortedByRank(Filter(users, (u: User) => u.companyId == companyId))
  }

  /** Exactly the users stored with the company are listed. */
  lemma CompanyUsersMembers(users: seq<User>, companyId: Option<Id>)
    ensures forall u :: u in CompanyUsers(users, companyId) <==> u in users && u.companyId == companyId
    ensures CompanyUsers(users, companyId) == [] <==> forall k :: 0 <= k < |users| ==> users[k].companyId != companyId
  {
    var f := Filter(users, (u: User) => u.companyId == companyId);
    FilterMembers(users, (u: User) => u.companyId == companyId);
    SortedByRankSorts(f);
    if forall k :: 0 <= k < |users| ==> users[k].companyId != companyId {
      FilterDropsAll(users, (u: User) => u.companyId == companyId);
    } else {
      var k :| 0 <= k < |users| && users[k].companyId == companyId;
      assert users[k] in SortedByRank(f);
    }
  }

  /** The users `sameId` matches with the caller's id. */
  function Mine(all: seq<User>, actor: Actor, sameId: (Id, Id) -> bool): seq<User> {
    Filter(all, (u: User) => sameId(u.id, actor.id))
  }

  /** `allUsers.find`: the first user `sameId` matches with the caller's id. */
  function MeIn(all: seq<User>, actor: Actor, sameId: (Id, Id) -> bool): (r: Option<nat>)
    ensures r.Some? ==> r.value < |all|
  {
    FirstWhere(all, (u: User) => sameId(u.id, actor.id))
  }

  /** The pick lists over the sorted users `all`: a lead's are the leads and
      the workers, an employee or guest's is the users `sameId` matches, and
      the first user it matches is then appended to the list of their stored role. */
  function Picked(all: seq<User>, actor: Actor, sameId: (Id, Id) -> bool): (r: Listing)
    ensures r.allUsers == all
    ensures forall i :: 0 <= i < |r.assignBy| ==> IsLead(r.assignBy[i].role)
    ensures !IsLead(actor.role) ==> |r.assignBy| <= 1
  {
    var leads := if IsLead(actor.role) then Filter(all, (u: User) => IsLead(u.role)) else [];
    var workers :=
      if IsLead(actor.role) then Filter(all, (u: User) => IsWorker(u.role))
      else if IsWorker(actor.role) then Mine(all, actor, sameId)
      else [];
    var me := MeIn(all, actor, sameId);
    if me.None? then Listing(all, leads, workers)
    else if IsLead(all[me.value].role) then Listing(all, leads + [all[me.value]], workers)
    else if IsWorker(all[me.value].role) then Listing(all, leads, workers + [all[me.value]])
    else Listing(all, leads, workers)
  }

  /** getAllManagedUsers, given how a stored user's id is compared with the
      caller's (`sameId`): a caller without a company gets 401 and an empty
      company 404, and otherwise the company's users and their pick lists. */
  function UserListingBy(users: seq<User>, actor: Actor, sameId: (Id, Id) -> bool): (r: Result<Listing, ManagedUserError>)
    ensures r.Failure? ==> r.error == InvalidToken || r.error == NoUsers
  {
    if actor.companyId.None? then Failure(InvalidToken)
    else
      var all := CompanyUsers(users, actor.companyId);
      if all == [] then Failure(NoUsers) else Success(Picked(all, actor, sameId))
  }

  /** getAllManagedUsers as written: both comparisons test a string against the
      ObjectId in `req.user.id` by `===`. */
  function UserListingAsWritten(users: seq<User>, actor: Actor): Result<Listing, ManagedUserError> {
    UserListingBy(users, actor, StrictlyEqualsObjectId)
  }

  /** getAllManagedUsers with the ids compared as ids. */
  function UserListing(users: seq<User>, actor: Actor): Result<Listing, ManagedUserError> {
    UserListingBy(users, actor, SameId())
  }

  /** Whatever the id comparison, a caller without a company is refused with
      401, an empty company with 404, and otherwise the company's users are
      listed, and only they. */
  lemma UserListingRefusals(users: seq<User>, actor: Actor, sameId: (Id, Id) -> bool)
    ensures actor.companyId.None? ==> UserListingBy(users, actor, sameId) == Failure(InvalidToken)
    ensures actor.companyId.Some? ==>
      (UserListingBy(users, actor, sameId) == Failure(NoUsers) <==>
         forall k :: 0 <= k < |users| ==> users[k].companyId != actor.companyId)
    ensures UserListingBy(users, actor, sameId).Success? ==>
      forall u :: u in UserListingBy(users, actor, sameId).value.allUsers <==> u in users && u.companyId == actor.companyId
  {
    CompanyUsersMembers(users, actor.companyId);
  }

  lemma MeInFinds(all: seq<User>, actor: Actor, sameId: (Id, Id) -> bool)
    ensures MeIn(all, actor, sameId).Some? ==> sameId(all[MeIn(all, actor, sameId).value].id, actor.id)
    ensures MeIn(all, actor, sameId).None? <==> forall k :: 0 <= k < |all| ==> !sameId(all[k].id, actor.id)
  {
    FirstWhereFirst(all, (u: User) => sameId(u.id, actor.id));
  }

  lemma MineMembers(all: seq<User>, actor: Actor, sameId: (Id, Id) -> bool)
    ensures forall u :: u in Mine(all, actor, sameId) <==> u in all && sameId(u.id, actor.id)
  {
    FilterMembers(all, (u: User) => sameId(u.id, actor.id));
  }

  /** A comparison that never holds matches no one. */
  lemma PickedWithoutMatch(all: seq<User>, actor: Actor, sameId: (Id, Id) -> bool)
    requires forall a: Id, b: Id :: !sameId(a, b)
    ensures IsWorker(actor.role) ==> Picked(all, actor, sameId).assignBy == [] && Picked(all, actor, sameId).assignTo == []
    ensures IsLead(actor.role) ==>
      Picked(all, actor, sameId).assignBy == Filter(all, (u: User) => IsLead(u.role)) &&
      Picked(all, actor, sameId).assignTo == Filter(all, (u: User) => IsWorker(u.role))
  {
    MeInFinds(all, actor, sameId);
    FilterDropsAll(all, (u: User) => sameId(u.id, actor.id));
  }

  /** As written, an employee or guest is listed no one to assign by or to,
      not even themselves, and a lead's lists hold each fitting user once, in
      rank order, without the caller appended. */
  lemma UserListingAsWrittenLeavesCallerOut(users: seq<User>, actor: Actor)
    ensures UserListingAsWritten(users, actor).Success? && IsWorker(actor.role) ==>
      UserListingAsWritten(users, actor).value.assignBy == [] && UserListingAsWritten(users, actor).value.assignTo == []
    ensures UserListingAsWritten(users, actor).Success? && IsLead(actor.role) ==>
      var l := UserListingAsWritten(users, actor).value;
      l.assignBy == Filter(l.allUsers, (u: User) => IsLead(u.role)) &&
      l.assignTo == Filter(l.allUsers, (u: User) => IsWorker(u.role))
  {
    PickedWithoutMatch(CompanyUsers(users, actor.companyId), actor, StrictlyEqualsObjectId);
  }

  /** The id comparison `a == b`. */
  function SameId(): (Id, Id) -> bool {
    (a: Id, b: Id) => a == b
  }

  /** `me` ends the list and also appears before its end. */
  predicate ListedTwice(list: seq<User>, me: User) {
    |list| >= 2 && list[|list| - 1] == me && me in list[..|list| - 1]
  }

  /** With the ids compared as ids, the caller's only record among `all`, when
      it holds the role of their token, appears twice in their own list: once
      where the filter put it, and once more at the end. */
  lemma PickedListsCallerTwice(all: seq<User>, actor: Actor, me: User)
    requires me in all && me.id == actor.id && me.role == actor.role
    requires forall u :: u in all && u.id == actor.id ==> u == me
    requires IsLead(me.role) || IsWorker(me.role)
    ensures var l := Picked(all, actor, SameId());
      var list := if IsLead(me.role) then l.assignBy else l.assignTo;
      ListedTwice(list, me)
  {
    MeInFinds(all, actor, SameId());
    var self := all[MeIn(all, actor, SameId()).value];
    assert self == me;
    var l := Picked(all, actor, SameId());
    if IsLead(me.role) {
      var leads := Filter(all, (u: User) => IsLead(u.role));
      FilterMembers(all, (u: User) => IsLead(u.role));
      assert l.assignBy == leads + [me];
      assert (leads + [me])[..|leads|] == leads;
    } else {
      var mine := Mine(all, actor, SameId());
      MineMembers(all, actor, SameId());
      assert l.assignTo == mine + [me];
      assert (mine + [me])[..|mine|] == mine;
    }
  }

  /** With the ids compared as ids, a caller with a single record, stored in
      their company with the role of their token, appears twice in their own
      list: once where the filter put them, and once more at its end. */
  lemma UserListingListsCallerTwice(users: seq<User>, actor: Actor, me: User)
    requires actor.companyId.Some?
    requires me in users && me.id == actor.id && me.companyId == actor.companyId && me.role == actor.role
    requires forall u :: u in users && u.id == actor.id ==> u == me
    requires IsLead(me.role) || IsWorker(me.role)
    ensures UserListing(users, actor).Success?
    ensures var l := UserListing(users, actor).value;
      var list := if IsLead(me.role) then l.assignBy else l.assignTo;
      ListedTwice(list, me)
  {
    var all := CompanyUsers(users, actor.companyId);
    CompanyUsersMembers(users, actor.companyId);
    assert me in all;
    PickedListsCallerTwice(all, actor, me);
    assert UserListing(users, actor) == Success(Picked(all, actor, SameId()));
  }

  // ---------------------------------------------------------------------------
  // updateManagedUser
  // ---------------------------------------------------------------------------

  /** The body fields; each is written only when truthy. */
  datatype UserPatch = UserPatch(username: Option<string>, email: Option<string>, password: Option<string>, role: Option<string>)

  /** `updatedData` applied to `u`: the password is hashed, and the role string is
      stored as sent, since `findByIdAndUpdate` runs no validators. */
  function Patched(u: User, p: UserPatch, hash: string -> string): User {
    u.(username := if Truthy(p.username) then p.username.value else u.username,
       email := if Truthy(p.email) then p.email.value else u.email,
       role := if Truthy(p.role) then ParseRole(p.role.value) else u.role,
       password := if Truthy(p.password) then hash(p.password.value) else u.password)
  }

  /** Some user other than the one at index `k` has email `e`. */
  predicate EmailHeldByOther(users: seq<User>, k: nat, e: string) {
    exists j :: 0 <= j < |users| && j != k && users[j].email == e
  }

  /** The guards of updateManagedUser in their order, and on success the index
      of the target and its new record. The self check compares the ObjectId
      with the route's string and never fires; a missing target, or a target
      or caller without a company, dereferences null and gets a 500; an email
      held by another user breaks the unique index, also a 500. */
  function Update(users: seq<User>, actor: Actor, targetId: Id, p: UserPatch, hash: string -> string)
    : (r: Result<(nat, User), ManagedUserError>)
    ensures r.Success? ==> r.value.0 < |users|
  {
    if actor.role != Admin then Failure(OnlyAdminsUpdate)
    else if StrictlyEqualsObjectId(targetId, actor.id) then Failure(SelfUpdate)
    else match UserAt(users, targetId)
      case None => Failure(ServerError)
      case Some(k) =>
        if users[k].role == Admin then Failure(TargetIsAdmin)
        else if users[k].companyId.None? || actor.companyId.None? then Failure(ServerError)
        else if users[k].companyId != actor.companyId then Failure(OtherCompany)
        else if Truthy(p.email) && EmailHeldByOther(users, k, p.email.value) then Failure(ServerError)
        else Success((k, Patched(users[k], p, hash)))
  }

  method UpdateManagedUser(db: Database, actor: Actor, targetId: Id, p: UserPatch, hash: string -> string)
    returns (r: Result<User, ManagedUserError>)
    modifies db`users
    ensures match Update(old(db.users), actor, targetId, p, hash)
      case Failure(e) => r == Failure(e) && db.users == old(db.users)
      case Success((k, u)) => r == Success(u) && db.users == old(db.users)[k := u]
  {
    var verdict := Update(db.users, actor, targetId, p, hash);
    if verdict.Failure? {
      return Failure(verdict.error);
    }
    var (k, u) := verdict.value;
    db.users := db.users[k := u];
    r := Success(u);
  }

  /** An update reaches only a non-admin user of the caller's own company, and
      only by an admin; it keeps the target's id and company, writes exactly
      the truthy fields, and stores a new password only as its hash. */
  lemma UpdateStaysInCompany(users: seq<User>, actor: Actor, targetId: Id, p: UserPatch, hash: string -> string)
    requires Update(users, actor, targetId, p, hash).Success?
    ensures var (k, u) := Update(users, actor, targetId, p, hash).value;
      && actor.role == Admin
      && users[k].id == targetId && users[k].role != Admin
      && users[k].companyId.Some? && users[k].companyId == actor.companyId
      && u.id == targetId && u.companyId == users[k].companyId
      && (Truthy(p.password) ==> u.password == hash(p.password.value))
      && (!Truthy(p.password) ==> u.password == users[k].password)
      && (!Truthy(p.username) ==> u.username == users[k].username)
      && (!Truthy(p.email) ==> u.email == users[k].email)
      && (!Truthy(p.role) ==> u.role == users[k].role)
  {
  }

  /** Updating keeps every email unique. */
  lemma UpdateKeepsEmailsUnique(users: seq<User>, actor: Actor, targetId: Id, p: UserPatch, hash: string -> string)
    requires UniqueEmails(users)
    requires Update(users, actor, targetId, p, hash).Success?
    ensures var (k, u) := Update(users, actor, targetId, p, hash).value;
      UniqueEmails(users[k := u])
  {
    var (k, u) := Update(users, actor, targetId, p, hash).value;
    var after := users[k := u];
    forall i, j | 0 <= i < j < |after| ensures after[i].email != after[j].email {
      if i == k || j == k {
        if Truthy(p.email) {
          assert !(j != k && users[j].email == p.email.value);
          assert !(i != k && users[i].email == p.email.value);
        }
      }
    }
  }

  /** A missing target is not a 404: an admin's request falls to the 500 branch. */
  lemma UpdateMissingTargetIsServerError(users: seq<User>, actor: Actor, targetId: Id, p: UserPatch, hash: string -> string)
    requires actor.role == Admin
    requires forall k :: 0 <= k < |users| ==> users[k].id != targetId
    ensures Update(users, actor, targetId, p, hash) == Failure(ServerError)
    ensures Update(users, actor, targetId, p, hash).error.Status() == 500
  {
    FirstWhereFirst(users, (u: User) => u.id == targetId);
  }

  /** The self check never fires, yet an admin is still refused their own
      record: it is an admin's, so the next guard answers 403 instead of 400. */
  lemma UpdateSelfRefusedAsAdmin(users: seq<User>, actor: Actor, p: UserPatch, hash: string -> string)
    requires actor.role == Admin
    requires UserAt(users, actor.id).Some? && users[UserAt(users, actor.id).value].role == Admin
    ensures Update(users, actor, actor.id, p, hash) == Failure(TargetIsAdmin)
    ensures Update(users, actor, actor.id, p, hash).error.Status() == 403
  {
  }

  // ---------------------------------------------------------------------------
  // deleteManagedUser
  // ---------------------------------------------------------------------------

  /** deleteManagedUser as written: the caller's stored role must be admin, and
      an unknown target is a 404; the self check compares the route's string to
      the ObjectId and never fires. */
  function DeletionAsWritten(users: seq<User>, actor: Actor, targetId: Id): (r: Result<nat, ManagedUserError>)
    ensures r.Success? ==> r.value < |users| && users[r.value].id == targetId
  {
    match UserAt(users, actor.id)
    case None => Failure(ServerError)
    case Some(c) =>
      if users[c].role != Admin then Failure(OnlyAdminsDelete)
      else if StrictlyEqualsObjectId(targetId, actor.id) then Failure(SelfDelete)
      else match UserAt(users, targetId)
        case None => Failure(UserNotFound)
        case Some(k) => Success(k)
  }

  /** deleteManagedUser with the self check comparing ids: an admin's request to
      delete themselves is refused with 403 before the target is looked for. */
  function Deletion(users: seq<User>, actor: Actor, targetId: Id): (r: Result<nat, ManagedUserError>)
    ensures r.Success? ==> r.value < |users| && users[r.value].id == targetId
  {
    match UserAt(users, actor.id)
    case None => Failure(ServerError)
    case Some(c) =>
      if users[c].role != Admin then Failure(OnlyAdminsDelete)
      else if targetId == actor.id then Failure(SelfDelete)
      else match UserAt(users, targetId)
        case None => Failure(UserNotFound)
        case Some(k) => Success(k)
  }

  /** Example: as written, an admin deletes their own account. */
  lemma SelfDeletionAllowedAsWritten()
    ensures var admin := User(1, "root", "root@example.com", "h", Admin, Some(7));
      DeletionAsWritten([admin], Actor(1, Admin, Some(7)), 1) == Success(0)
  {
    var admin := User(1, "root", "root@example.com", "h", Admin, Some(7));
    assert UserAt([admin], 1) == Some(0);
  }

  /** A deletion succeeds exactly when the caller is stored as an admin, the
      target is someone else, and the target exists; the companies of the two
      are never consulted. */
  lemma DeletionRule(users: seq<User>, actor: Actor, targetId: Id)
    ensures Deletion(users, actor, targetId).Success? <==>
      && UserAt(users, actor.id).Some? && users[UserAt(users, actor.id).value].role == Admin
      && targetId != actor.id
      && exists k :: 0 <= k < |users| && users[k].id == targetId
    ensures Deletion(users, actor, targetId).Success? ==> users[Deletion(users, actor, targetId).value].id != actor.id
    ensures UserAt(users, actor.id).Some? && users[UserAt(users, actor.id).value].role == Admin ==>
      Deletion(users, actor, actor.id) == Failure(SelfDelete)
  {
    FirstWhereFirst(users, (u: User) => u.id == targetId);
  }

  method DeleteManagedUser(db: Database, actor: Actor, targetId: Id) returns (r: Result<(), ManagedUserError>)
    modifies db`users
    ensures match Deletion(old(db.users), actor, targetId)
      case Failure(e) => r == Failure(e) && db.users == old(db.users)
      case Success(k) => r == Success(()) && db.users == RemoveAt(old(db.users), k)
  {
    var verdict := Deletion(db.users, actor, targetId);
    if verdict.Failure? {
      return Failure(verdict.error);
    }
    db.users := RemoveAt(db.users, verdict.value);
    r := Success(());
  }
}
