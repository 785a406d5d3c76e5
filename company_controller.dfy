/** The company handlers (controllers/companyController.js): founding a
    company and registering its first admin, the cascade that deletes a
    company with everything that belongs to it, and editing a company. The
    request schema of company creation (validation/company-validation.js) is
    modelled here; the registration schema is in UserValidation. */
module CompanyController {
  import opened Common
  import opened Models
  import opened Store
  import opened UserValidation

  datatype CompanyError =
    | InvalidCompany
    | CompanyTaken
    | InvalidRegistration(field: FormError)
    | EmailTaken
    | ConfirmationDiffers
    | WeakPassword
    | AdminsOnly
    | NotYourCompany
    | CompanyNotFound
    | NameInUse
    | ServerError
  {
    function Status(): nat {
      match this
      case AdminsOnly => 403
      case NotYourCompany => 403
      case CompanyNotFound => 404
      case ServerError => 500
      case _ => 400
    }
  }

  /** `Company.findById` */
  function CompanyAt(companies: seq<Company>, id: Id): (r: Option<nat>)
    ensures r.Some? ==> r.value < |companies| && companies[r.value].id == id
  {
    FirstWhere(companies, (c: Company) => c.id == id)
  }

  /** `Company.findOne({ name })` */
  function CompanyNamed(companies: seq<Company>, name: string): (r: Option<nat>)
    ensures r.Some? ==> r.value < |companies| && companies[r.value].name == name
  {
    FirstWhere(companies, (c: Company) => c.name == name)
  }

  /** No two companies share a name. */
  predicate UniqueNames(companies: seq<Company>) {
    forall i, j :: 0 <= i < j < |companies| ==> companies[i].name != companies[j].name
  }

  /** Replacing one company by a record whose name no other company holds
      keeps the names unique. */
  lemma RenameKeepsUnique(companies: seq<Company>, k: nat, c: Company)
    requires UniqueNames(companies) && k < |companies|
    requires forall i :: 0 <= i < |companies| && i != k ==> companies[i].name != c.name
    ensures UniqueNames(companies[k := c])
  {
    var after := companies[k := c];
    forall i, j | 0 <= i < j < |after| ensures after[i].name != after[j].name {
      if i != k && j != k {
        assert after[i] == companies[i] && after[j] == companies[j];
      }
    }
  }

  // ---------------------------------------------------------------------------
  // createCompany
  // ---------------------------------------------------------------------------

  /** The request body; `kind` is the `type` field. */
  datatype CompanyRequest = CompanyRequest(name: Option<string>, kind: Option<string>, description: Option<string>, userId: Option<Id>)

  /** validateCompany as written: `name` and `type` must be non-empty strings
      and `description`, if sent, too; the schema declares no other key, so a
      body that sends `userId` is refused. */
  predicate CompanySchemaAsWritten(r: CompanyRequest) {
    Given(r.name) && Given(r.kind) && (r.description.None? || r.description.value != "") && r.userId.None?
  }

  /** validateCompany with `userId` declared as an optional key. */
  predicate CompanySchema(r: CompanyRequest) {
    Given(r.name) && Given(r.kind) && (r.description.None? || r.description.value != "")
  }

  /** The new company and the users after the optional link of `userId` to it;
      an unknown `userId` links no one. `asWritten` picks the schema as written
      or the one that declares `userId`. */
  function Founding(companies: seq<Company>, users: seq<User>, r: CompanyRequest, asWritten: bool, id: Id)
    : (res: Result<(Company, seq<User>), CompanyError>)
    ensures res.Success? ==> r.name.Some? && CompanyNamed(companies, r.name.value).None?
    ensures res.Success? ==> res.value.0.id == id && res.value.0.name == r.name.value
    ensures res.Success? ==> |res.value.1| == |users|
    ensures res.Success? ==> forall k :: 0 <= k < |users| ==> res.value.1[k].(companyId := users[k].companyId) == users[k]
  {
    if !(if asWritten then CompanySchemaAsWritten(r) else CompanySchema(r)) then Failure(InvalidCompany)
    else if CompanyNamed(companies, r.name.value).Some? then Failure(CompanyTaken)
    else
      var company := Company(id, r.name.value, r.kind.value, if r.description.Some? then r.description.value else "");
      var linked :=
        if r.userId.None? then users
        else match UserAt(users, r.userId.value)
          case None => users
          case Some(k) => users[k := users[k].(companyId := Some(id))];
      Success((company, linked))
  }

  /** createCompany as written. */
  function FoundingAsWritten(companies: seq<Company>, users: seq<User>, r: CompanyRequest, id: Id)
    : (res: Result<(Company, seq<User>), CompanyError>)
    ensures res.Success? ==> r.userId.None? && res.value.1 == users
  {
    Founding(companies, users, r, true, id)
  }

  /** As written, the link is never reached: every body that names a user is
      refused with 400 before anything is stored. */
  lemma LinkUnreachableAsWritten(companies: seq<Company>, users: seq<User>, r: CompanyRequest, id: Id)
    requires r.userId.Some?
    ensures FoundingAsWritten(companies, users, r, id) == Failure(InvalidCompany)
    ensures FoundingAsWritten(companies, users, r, id).error.Status() == 400
  {
  }

  /** With `userId` accepted: a company is founded only under a name no company
      holds; the user named, if stored, is moved to the new company, and no
      other user changes. */
  lemma FoundingLinksOnlyNamedUser(companies: seq<Company>, users: seq<User>, r: CompanyRequest, id: Id)
    requires Founding(companies, users, r, false, id).Success?
    ensures var (c, after) := Founding(companies, users, r, false, id).value;
      && c.id == id && c.name == r.name.value && c.kind == r.kind.value
      && (forall i :: 0 <= i < |companies| ==> companies[i].name != c.name)
      && |after| == |users|
      && (forall i :: 0 <= i < |users| ==>
            after[i] == if r.userId.Some? && UserAt(users, r.userId.value) == Some(i)
                        then users[i].(companyId := Some(id)) else users[i])
      && (r.userId.Some? && (exists i :: 0 <= i < |users| && users[i].id == r.userId.value) ==>
            exists i :: 0 <= i < |users| && after[i].id == r.userId.value && after[i].companyId == Some(id))
  {
    FirstWhereFirst(companies, (x: Company) => x.name == r.name.value);
    if r.userId.Some? {
      FirstWhereFirst(users, (u: User) => u.id == r.userId.value);
    }
  }

  method CreateCompany(db: Database, r: CompanyRequest) returns (res: Result<Company, CompanyError>)
    modifies db`companies, db`users, db`nextId
    ensures match Founding(old(db.companies), old(db.users), r, false, old(db.nextId))
      case Failure(e) =>
        res == Failure(e) && db.companies == old(db.companies) && db.users == old(db.users) && db.nextId == old(db.nextId)
      case Success((c, after)) =>
        res == Success(c) && db.companies == old(db.companies) + [c] && db.users == after && db.nextId == old(db.nextId) + 1
  {
    if !CompanySchema(r) {
      return Failure(InvalidCompany);
    }
    if CompanyNamed(db.companies, r.name.value).Some? {
      return Failure(CompanyTaken);
    }
    var id := db.FreshId();
    var company := Company(id, r.name.value, r.kind.value, if r.description.Some? then r.description.value else "");
    db.companies := db.companies + [company];
    if r.userId.Some? {
      var k := UserAt(db.users, r.userId.value);
      if k.Some? {
        db.users := db.users[k.value := db.users[k.value].(companyId := Some(id))];
      }
    }
    res := Success(company);
  }

  /** Founding keeps company names unique. */
  lemma FoundingKeepsNamesUnique(companies: seq<Company>, users: seq<User>, r: CompanyRequest, asWritten: bool, id: Id)
    requires UniqueNames(companies)
    requires Founding(companies, users, r, asWritten, id).Success?
    ensures UniqueNames(companies + [Founding(companies, users, r, asWritten, id).value.0])
  {
    var c := Founding(companies, users, r, asWritten, id).value.0;
    FirstWhereFirst(companies, (x: Company) => x.name == r.name.value);
    forall i, j | 0 <= i < j < |companies + [c]| ensures (companies + [c])[i].name != (companies + [c])[j].name {
      assert (companies + [c])[i] == companies[i];
      if j < |companies| {
        assert (companies + [c])[j] == companies[j];
      }
    }
  }

  // ---------------------------------------------------------------------------
  // registerUser
  // ---------------------------------------------------------------------------

  /** The guards of registerUser and the user it saves. `passwordOk` is the
      password validator of utils/validator.js; `companyObjectId` is the cast
      of the form's company id to an ObjectId, which fails on save when it is
      not one. Whatever role the form names, the user is saved as an admin. */
  function Registration(users: seq<User>, f: RegistrationForm, emailOk: string -> bool, passwordOk: string -> bool,
                        companyObjectId: Option<Id>, hash: string -> string, id: Id): (r: Result<User, CompanyError>)
  {
    match ValidateRegistration(f, emailOk)
    case Failure(field) => Failure(InvalidRegistration(field))
    case Success(_) =>
      if EmailOwner(users, f.email.value).Some? then Failure(EmailTaken)
      else if f.password != f.confirmPassword then Failure(ConfirmationDiffers)
      else if !passwordOk(f.password.value) then Failure(WeakPassword)
      else if companyObjectId.None? then Failure(ServerError)
      else Success(User(id, f.username.value, f.email.value, hash(f.password.value), Admin, companyObjectId))
  }

  /** A registered user is always an admin of the named company, under an
      email no user held, with the hash of a password that follows the rule
      and was confirmed. */
  lemma RegistrationMakesAdmin(users: seq<User>, f: RegistrationForm, emailOk: string -> bool, passwordOk: string -> bool,
                               companyObjectId: Option<Id>, hash: string -> string, id: Id)
    requires Registration(users, f, emailOk, passwordOk, companyObjectId, hash, id).Success?
    ensures var u := Registration(users, f, emailOk, passwordOk, companyObjectId, hash, id).value;
      && u.role == Admin && u.id == id && u.companyId == companyObjectId
      && f.password.Some? && u.password == hash(f.password.value) && PasswordRule(f.password.value)
      && f.confirmPassword == f.password
      && (forall i :: 0 <= i < |users| ==> users[i].email != u.email)
  {
    ValidateRegistrationExactly(f, emailOk);
    FirstWhereFirst(users, (u: User) => u.email == f.email.value);
  }

  /** The role in the form changes nothing about the outcome. */
  lemma RegistrationIgnoresRole(users: seq<User>, f: RegistrationForm, emailOk: string -> bool, passwordOk: string -> bool,
                                companyObjectId: Option<Id>, hash: string -> string, id: Id, role: string)
    requires role in {"admin", "manager", "employee", "guest"}
    ensures Registration(users, f.(role := Some(role)), emailOk, passwordOk, companyObjectId, hash, id) ==
            Registration(users, f.(role := None), emailOk, passwordOk, companyObjectId, hash, id)
  {
  }

  /** A registration whose confirmation differs from the password is refused. */
  lemma RegistrationNeedsConfirmation(users: seq<User>, f: RegistrationForm, emailOk: string -> bool, passwordOk: string -> bool,
                                      companyObjectId: Option<Id>, hash: string -> string, id: Id)
    requires f.confirmPassword != f.password
    ensures Registration(users, f, emailOk, passwordOk, companyObjectId, hash, id).Failure?
  {
  }

  method RegisterUser(db: Database, f: RegistrationForm, emailOk: string -> bool, passwordOk: string -> bool,
                      companyObjectId: Option<Id>, hash: string -> string) returns (r: Result<User, CompanyError>)
    modifies db`users, db`nextId
    ensures match Registration(old(db.users), f, emailOk, passwordOk, companyObjectId, hash, old(db.nextId))
      case Failure(e) => r == Failure(e) && db.users == old(db.users) && db.nextId == old(db.nextId)
      case Success(u) => r == Success(u) && db.users == old(db.users) + [u] && db.nextId == old(db.nextId) + 1
  {
    var verdict := Registration(db.users, f, emailOk, passwordOk, companyObjectId, hash, db.nextId);
    if verdict.Failure? {
      return Failure(verdict.error);
    }
    var id := db.FreshId();
    db.users := db.users + [verdict.value];
    r := Success(verdict.value);
  }

  /** Registration keeps every email unique. */
  lemma RegistrationKeepsEmailsUnique(users: seq<User>, f: RegistrationForm, emailOk: string -> bool, passwordOk: string -> bool,
                                      companyObjectId: Option<Id>, hash: string -> string, id: Id)
    requires UniqueEmails(users)
    requires Registration(users, f, emailOk, passwordOk, companyObjectId, hash, id).Success?
    ensures UniqueEmails(users + [Registration(users, f, emailOk, passwordOk, companyObjectId, hash, id).value])
  {
    FreshEmailKeepsUnique(users, Registration(users, f, emailOk, passwordOk, companyObjectId, hash, id).value);
  }

  // ---------------------------------------------------------------------------
  // deleteCompanyAndData
  // ---------------------------------------------------------------------------

  /** The guards of deleteCompanyAndData: an admin, of this very company, which
      must exist. On success, the index of the company. */
  function CascadeGuard(companies: seq<Company>, actor: Actor, companyId: Id): (r: Result<nat, CompanyError>)
    ensures r.Success? ==> r.value < |companies| && companies[r.value].id == companyId
  {
    if actor.role != Admin then Failure(AdminsOnly)
    else if actor.companyId != Some(companyId) then Failure(NotYourCompany)
    else match CompanyAt(companies, companyId)
      case None => Failure(CompanyNotFound)
      case Some(k) => Success(k)
  }

  /** The ids of the company's users (`users.map(u => u._id)`). */
  function MemberIds(users: seq<User>, companyId: Id): (r: set<Id>)
    ensures forall u :: u in users && u.companyId == Some(companyId) ==> u.id in r
  {
    set u | u in users && u.companyId == Some(companyId) :: u.id
  }

  function Member(companyId: Id): User -> bool { (u: User) => u.companyId == Some(companyId) }
  function NonMember(companyId: Id): User -> bool { (u: User) => u.companyId != Some(companyId) }
  function MadeBy(ids: set<Id>): Event -> bool { (e: Event) => e.createdBy in ids }
  function NotMadeBy(ids: set<Id>): Event -> bool { (e: Event) => e.createdBy !in ids }
  function OrderOf(companyId: Id): Order -> bool { (o: Order) => o.companyId == companyId }
  function OrderNotOf(companyId: Id): Order -> bool { (o: Order) => o.companyId != companyId }
  function PromoOf(companyId: Id): Promo -> bool { (p: Promo) => p.companyId == Some(companyId) }
  function PromoNotOf(companyId: Id): Promo -> bool { (p: Promo) => p.companyId != Some(companyId) }

  /** What the cascade returns as `deletedData`. */
  datatype Removed = Removed(company: Company, users: seq<User>, events: seq<Event>, orders: seq<Order>, promos: seq<Promo>)

  /** The records the cascade keeps. */
  datatype Kept = Kept(users: seq<User>, events: seq<Event>, orders: seq<Order>, promos: seq<Promo>, companies: seq<Company>)

  /** The cascade once the guards pass for the company at index `k`: the
      company's users, the events its users created, its orders and its promo
      codes are removed, and so is the company. */
  function Cascade(users: seq<User>, events: seq<Event>, orders: seq<Order>, promos: seq<Promo>,
                   companies: seq<Company>, k: nat, companyId: Id): (r: (Removed, Kept))
    requires k < |companies|
    ensures r.0.company == companies[k] && |r.1.companies| == |companies| - 1
  {
    var ids := MemberIds(users, companyId);
    (Removed(companies[k], Filter(users, Member(companyId)), Filter(events, MadeBy(ids)),
             Filter(orders, OrderOf(companyId)), Filter(promos, PromoOf(companyId))),
     Kept(Filter(users, NonMember(companyId)), Filter(events, NotMadeBy(ids)),
          Filter(orders, OrderNotOf(companyId)), Filter(promos, PromoNotOf(companyId)), RemoveAt(companies, k)))
  }

  method DeleteCompanyAndData(db: Database, actor: Actor, companyId: Id) returns (r: Result<Removed, CompanyError>)
    modifies db`users, db`events, db`orders, db`promos, db`companies
    ensures match CascadeGuard(old(db.companies), actor, companyId)
      case Failure(e) =>
        && r == Failure(e) && db.users == old(db.users) && db.events == old(db.events)
        && db.orders == old(db.orders) && db.promos == old(db.promos) && db.companies == old(db.companies)
      case Success(k) =>
        var (removed, kept) := Cascade(old(db.users), old(db.events), old(db.orders), old(db.promos), old(db.companies), k, companyId);
        && r == Success(removed)
        && db.users == kept.users && db.events == kept.events && db.orders == kept.orders
        && db.promos == kept.promos && db.companies == kept.companies
  {
    var guard := CascadeGuard(db.companies, actor, companyId);
    if guard.Failure? {
      return Failure(guard.error);
    }
    var (removed, kept) := Cascade(db.users, db.events, db.orders, db.promos, db.companies, guard.value, companyId);
    db.users, db.events, db.orders, db.promos, db.companies := kept.users, kept.events, kept.orders, kept.promos, kept.companies;
    r := Success(removed);
  }

  /** After the cascade no user, order or promo code of the company is left,
      nor any event created by one of its users; every other record stays. */
  lemma CascadeSparesOthers(users: seq<User>, events: seq<Event>, orders: seq<Order>, promos: seq<Promo>,
                            companies: seq<Company>, k: nat, companyId: Id)
    requires k < |companies|
    ensures var kept := Cascade(users, events, orders, promos, companies, k, companyId).1;
      && (forall u :: u in kept.users <==> u in users && u.companyId != Some(companyId))
      && (forall e :: e in kept.events <==>
            e in events && forall u :: u in users && u.companyId == Some(companyId) ==> e.createdBy != u.id)
      && (forall o :: o in kept.orders <==> o in orders && o.companyId != companyId)
      && (forall p :: p in kept.promos <==> p in promos && p.companyId != Some(companyId))
  {
    FilterMembers(users, NonMember(companyId));
    FilterMembers(events, NotMadeBy(MemberIds(users, companyId)));
    FilterMembers(orders, OrderNotOf(companyId));
    FilterMembers(promos, PromoNotOf(companyId));
  }

  /** Nothing is lost or duplicated: each collection is split into what the
      cascade returns and what it keeps. */
  lemma CascadePartitions(users: seq<User>, events: seq<Event>, orders: seq<Order>, promos: seq<Promo>,
                          companies: seq<Company>, k: nat, companyId: Id)
    requires k < |companies|
    ensures var (removed, kept) := Cascade(users, events, orders, promos, companies, k, companyId);
      && multiset(removed.users) + multiset(kept.users) == multiset(users)
      && multiset(removed.events) + multiset(kept.events) == multiset(events)
      && multiset(removed.orders) + multiset(kept.orders) == multiset(orders)
      && multiset(removed.promos) + multiset(kept.promos) == multiset(promos)
  {
    FilterSplits(users, Member(companyId), NonMember(companyId));
    FilterSplits(events, MadeBy(MemberIds(users, companyId)), NotMadeBy(MemberIds(users, companyId)));
    FilterSplits(orders, OrderOf(companyId), OrderNotOf(companyId));
    FilterSplits(promos, PromoOf(companyId), PromoNotOf(companyId));
  }

  /** Only an admin of the company itself may delete it, and only if it exists. */
  lemma CascadeGuardExactly(companies: seq<Company>, actor: Actor, companyId: Id)
    ensures CascadeGuard(companies, actor, companyId).Success? <==>
      && actor.role == Admin && actor.companyId == Some(companyId)
      && exists k :: 0 <= k < |companies| && companies[k].id == companyId
  {
    FirstWhereFirst(companies, (c: Company) => c.id == companyId);
  }

  // ---------------------------------------------------------------------------
  // updateCompany
  // ---------------------------------------------------------------------------

  /** The body fields; `kind` is the `type` field. */
  datatype CompanyPatch = CompanyPatch(name: Option<string>, kind: Option<string>, description: Option<string>)

  /** The guards of updateCompany and the new record: any admin may edit any
      company; a new name must be unused; only truthy fields are written. */
  function Revision(companies: seq<Company>, actor: Actor, companyId: Id, p: CompanyPatch): (r: Result<(nat, Company), CompanyError>)
    ensures r.Success? ==> r.value.0 < |companies|
  {
    if actor.role != Admin then Failure(AdminsOnly)
    else match CompanyAt(companies, companyId)
      case None => Failure(CompanyNotFound)
      case Some(k) =>
        var c := companies[k];
        if Truthy(p.name) && p.name.value != c.name && CompanyNamed(companies, p.name.value).Some? then Failure(NameInUse)
        else Success((k, c.(name := if Truthy(p.name) then p.name.value else c.name,
                            kind := if Truthy(p.kind) then p.kind.value else c.kind,
                            description := if Truthy(p.description) then p.description.value else c.description)))
  }

  /** The rename's `updateMany` calls set `companyName`, a field none of the
      user, event, order and promo code schemas declares; strict mode drops it,
      so they change nothing, and only the company record is written. */
  method UpdateCompany(db: Database, actor: Actor, companyId: Id, p: CompanyPatch) returns (r: Result<Company, CompanyError>)
    modifies db`companies
    ensures match Revision(old(db.companies), actor, companyId, p)
      case Failure(e) => r == Failure(e) && db.companies == old(db.companies)
      case Success((k, c)) => r == Success(c) && db.companies == old(db.companies)[k := c]
  {
    var verdict := Revision(db.companies, actor, companyId, p);
    if verdict.Failure? {
      return Failure(verdict.error);
    }
    var (k, c) := verdict.value;
    db.companies := db.companies[k := c];
    r := Success(c);
  }

  /** An edit keeps the company's id, writes exactly the truthy fields, and
      keeps company names unique. */
  lemma RevisionKeepsNamesUnique(companies: seq<Company>, actor: Actor, companyId: Id, p: CompanyPatch)
    requires UniqueNames(companies)
    requires Revision(companies, actor, companyId, p).Success?
    ensures var (k, c) := Revision(companies, actor, companyId, p).value;
      && companies[k].id == companyId && c.id == companyId
      && (Truthy(p.name) ==> c.name == p.name.value) && (!Truthy(p.name) ==> c.name == companies[k].name)
      && (!Truthy(p.kind) ==> c.kind == companies[k].kind)
      && (!Truthy(p.description) ==> c.description == companies[k].description)
      && UniqueNames(companies[k := c])
  {
    var (k, c) := Revision(companies, actor, companyId, p).value;
    if Truthy(p.name) && p.name.value != companies[k].name {
      FirstWhereFirst(companies, (x: Company) => x.name == p.name.value);
    }
    RenameKeepsUnique(companies, k, c);
  }

  /** There is no own-company check: the caller's company does not matter. */
  lemma RevisionIgnoresCallerCompany(companies: seq<Company>, actor: Actor, companyId: Id, p: CompanyPatch, other: Option<Id>)
    ensures Revision(companies, actor, companyId, p) == Revision(companies, actor.(companyId := other), companyId, p)
  {
  }
}
