/** The promo-code handlers (controllers/promoCodeController.js): applying a code
    to a pending order, creating and updating codes with their activation and
    expiry rules, switching a code on or off, and listing the active codes. */
module PromoController {
  import opened Common
  import opened Models
  import opened Store
  import opened PromoPricing
  import opened CronJobs

  datatype ApplyError =
    | OrderIdRequired
    | NotAuthenticated
    | PromoNotFoundOrInactive
    | PromoExpired
    | AlreadyUsed
    | OrderNotFound
    | OrderNotPending
    | AmountMismatch
    | NotBuyer
  {
    function Status(): nat {
      match this
      case NotAuthenticated => 401
      case PromoNotFoundOrInactive | OrderNotFound => 404
      case NotBuyer => 403
      case _ => 400
    }
  }

  /** What `applyPromoCode` decides: a plain refusal, the expiry refusal that
      switches the promo off, or a discount applied to an order. */
  datatype ApplyVerdict =
    | Refused(error: ApplyError)
    | ExpireAndRefuse(promo: nat)
    | Apply(promo: nat, order: nat, userId: Id, discount: real, finalAmount: real)

  /** `PromoCode.findOne({ code, isActive: true })` */
  function ActivePromoAt(promos: seq<Promo>, code: string): (r: Option<nat>)
    ensures r.Some? ==> r.value < |promos| && promos[r.value].code == code && promos[r.value].isActive
  {
    FirstWhere(promos, (p: Promo) => p.code == code && p.isActive)
  }

  /** `PromoCodeUsage.findOne({ userId, promoCode })` finds a record. */
  predicate UsedBy(usages: seq<Usage>, userId: Id, promoId: Id) {
    exists k :: 0 <= k < |usages| && usages[k].userId == userId && usages[k].promoId == promoId
  }

  /** `new Date() > promo.expiresAt`, with a missing expiry never passed. */
  predicate PastExpiry(p: Promo, now: Time) {
    p.expiresAt.Some? && now > p.expiresAt.value
  }

  /** The guard chain of applyPromoCode, in the handler's order. */
  function ApplyCode(orders: seq<Order>, promos: seq<Promo>, usages: seq<Usage>, userId: Option<Id>,
                     code: string, originalAmount: Option<real>, orderId: Option<Id>, now: Time): (r: ApplyVerdict)
    ensures r.ExpireAndRefuse? ==> r.promo < |promos|
    ensures r.Apply? ==> r.promo < |promos| && r.order < |orders|
  {
    if orderId.None? then Refused(OrderIdRequired)
    else if userId.None? then Refused(NotAuthenticated)
    else match ActivePromoAt(promos, code)
      case None => Refused(PromoNotFoundOrInactive)
      case Some(k) =>
        var p := promos[k];
        if PastExpiry(p, now) then ExpireAndRefuse(k)
        else if UsedBy(usages, userId.value, p.id) then Refused(AlreadyUsed)
        else match FirstWhere(orders, (o: Order) => o.id == orderId.value)
          case None => Refused(OrderNotFound)
          case Some(o) =>
            if orders[o].paymentStatus != Pending then Refused(OrderNotPending)
            else if originalAmount.None? || orders[o].totalAmount != originalAmount.value then Refused(AmountMismatch)
            else if orders[o].userId != userId.value then Refused(NotBuyer)
            else
              var d := Discount(p.discountType, p.discountAmount, originalAmount.value);
              Apply(k, o, userId.value, d, Clamped(originalAmount.value, d))
  }

  /** Every guard holds when a code is applied: the promo is active and carries
      the code, has not expired, the caller has not used it, and the order is the
      caller's pending order whose total is the amount quoted. The new total is
      the quoted amount less the discount, floored at 0. */
  lemma ApplyPassesEveryGuard(orders: seq<Order>, promos: seq<Promo>, usages: seq<Usage>, userId: Option<Id>,
                              code: string, originalAmount: Option<real>, orderId: Option<Id>, now: Time)
    requires ApplyCode(orders, promos, usages, userId, code, originalAmount, orderId, now).Apply?
    ensures var v := ApplyCode(orders, promos, usages, userId, code, originalAmount, orderId, now);
      var p := promos[v.promo];
      var o := orders[v.order];
      && userId == Some(v.userId) && orderId == Some(o.id) && originalAmount == Some(o.totalAmount)
      && p.code == code && p.isActive && !PastExpiry(p, now)
      && !UsedBy(usages, v.userId, p.id)
      && o.paymentStatus == Pending && o.userId == v.userId
      && v.discount == Discount(p.discountType, p.discountAmount, o.totalAmount)
      && v.finalAmount == Clamped(o.totalAmount, v.discount) && v.finalAmount >= 0.0
  {
  }

  /** A code is refused as expired only when its first active holder of the code
      is past its expiry; the order is never looked at on that path. */
  lemma ExpiryRefusalIsPastExpiry(orders: seq<Order>, orders2: seq<Order>, promos: seq<Promo>, usages: seq<Usage>,
                                  userId: Option<Id>, code: string, originalAmount: Option<real>, orderId: Option<Id>, now: Time)
    requires ApplyCode(orders, promos, usages, userId, code, originalAmount, orderId, now).ExpireAndRefuse?
    ensures var k := ApplyCode(orders, promos, usages, userId, code, originalAmount, orderId, now).promo;
      && ActivePromoAt(promos, code) == Some(k) && PastExpiry(promos[k], now)
      && ApplyCode(orders2, promos, usages, userId, code, originalAmount, orderId, now).ExpireAndRefuse?
  {
  }

  /** Once a user has a usage record for the promo a code resolves to, every
      later attempt by that user with that code, on any order and amount, is
      refused as already used, unless the promo has expired by then. */
  lemma UsedCodeRefused(orders: seq<Order>, promos: seq<Promo>, usages: seq<Usage>, userId: Id,
                        code: string, originalAmount: Option<real>, orderId: Id, now: Time, at: Time)
    requires ActivePromoAt(promos, code).Some?
    requires !PastExpiry(promos[ActivePromoAt(promos, code).value], now)
    ensures ApplyCode(orders, promos, usages + [Usage(userId, promos[ActivePromoAt(promos, code).value].id, at)],
                      Some(userId), code, originalAmount, Some(orderId), now) == Refused(AlreadyUsed)
  {
    var k := ActivePromoAt(promos, code).value;
    var u := usages + [Usage(userId, promos[k].id, at)];
    assert u[|usages|].userId == userId && u[|usages|].promoId == promos[k].id;
  }

  /** Applies a promo code. The expiry refusal saves the promo switched off and
      nothing else; every other refusal saves nothing; a success sets the order's
      total to the discounted amount and records one usage of the promo by the
      caller, and changes nothing else. */
  method ApplyPromoCode(db: Database, userId: Option<Id>, code: string, originalAmount: Option<real>, orderId: Option<Id>, now: Time)
    returns (r: Result<(real, real), ApplyError>)
    modifies db`promos, db`orders, db`usages
    ensures match ApplyCode(old(db.orders), old(db.promos), old(db.usages), userId, code, originalAmount, orderId, now)
      case Refused(e) =>
        r == Failure(e) && db.promos == old(db.promos) && db.orders == old(db.orders) && db.usages == old(db.usages)
      case ExpireAndRefuse(k) =>
        && r == Failure(PromoExpired)
        && db.promos == old(db.promos)[k := old(db.promos)[k].(isActive := false)]
        && db.orders == old(db.orders) && db.usages == old(db.usages)
      case Apply(k, o, u, d, f) =>
        && r == Success((d, f))
        && db.orders == old(db.orders)[o := old(db.orders)[o].(totalAmount := f)]
        && db.usages == old(db.usages) + [Usage(u, old(db.promos)[k].id, now)]
        && db.promos == old(db.promos)
  {
    var v := ApplyCode(db.orders, db.promos, db.usages, userId, code, originalAmount, orderId, now);
    match v
    case Refused(e) =>
      r := Failure(e);
    case ExpireAndRefuse(k) =>
      db.promos := db.promos[k := db.promos[k].(isActive := false)];
      r := Failure(PromoExpired);
    case Apply(k, o, u, d, f) =>
      db.orders := db.orders[o := db.orders[o].(totalAmount := f)];
      db.usages := db.usages + [Usage(u, db.promos[k].id, now)];
      r := Success((d, f));
  }

  /** A second apply by the same user of the code just applied, with the same
      clock, is refused as already used. */
  lemma SecondApplyRefused(orders: seq<Order>, promos: seq<Promo>, usages: seq<Usage>, userId: Id,
                           code: string, originalAmount: real, orderId: Id, now: Time,
                           laterAmount: Option<real>, laterOrder: Id)
    requires ApplyCode(orders, promos, usages, Some(userId), code, Some(originalAmount), Some(orderId), now).Apply?
    ensures var v := ApplyCode(orders, promos, usages, Some(userId), code, Some(originalAmount), Some(orderId), now);
      var after := orders[v.order := orders[v.order].(totalAmount := v.finalAmount)];
      ApplyCode(after, promos, usages + [Usage(userId, promos[v.promo].id, now)],
                Some(userId), code, laterAmount, Some(laterOrder), now) == Refused(AlreadyUsed)
  {
    var v := ApplyCode(orders, promos, usages, Some(userId), code, Some(originalAmount), Some(orderId), now);
    var after := orders[v.order := orders[v.order].(totalAmount := v.finalAmount)];
    UsedCodeRefused(after, promos, usages, userId, code, laterAmount, laterOrder, now, now);
  }

  // ---------------------------------------------------------------------------
  // createPromoCode and updatePromoCode
  // ---------------------------------------------------------------------------

  datatype PromoError = OnlyAdmin | CodeExistsInCompany | PromoNotFound | CodeExists | IsActiveNotBoolean | PromoRejectedOnSave
  {
    function Status(): nat {
      match this
      case OnlyAdmin => 403
      case PromoRejectedOnSave => 500
      case PromoNotFound => 404
      case _ => 400
    }
  }

  /** The body of a create request; `Untyped` is a request without a discount
      type, and the discount amount is the raw body field. */
  datatype PromoInput = PromoInput(
    code: string,
    discountAmount: Field,
    discountType: DiscountType,
    description: string,
    expiresAt: Option<Time>,
    isActive: Option<bool>)

  /** The activation rule of a new promo: the requested flag, true by default,
      and false whenever the expiry is already reached. */
  function InitialActive(isActive: Option<bool>, expiresAt: Option<Time>, now: Time): (r: bool)
    ensures expiresAt.Some? && expiresAt.value <= now ==> !r
    ensures (expiresAt.None? || expiresAt.value > now) ==> r == (isActive.None? || isActive.value)
  {
    var requested := if isActive.Some? then isActive.value else true;
    if expiresAt.Some? && expiresAt.value <= now then false else requested
  }

  /** `PromoCode.findOne({ code, companyId })`: the same code within one company
      (a caller without a company matches promos without one). */
  predicate CodeTakenInCompany(promos: seq<Promo>, code: string, companyId: Option<Id>) {
    exists k :: 0 <= k < |promos| && promos[k].code == code && promos[k].companyId == companyId
  }

  /** The promo schema's `required` code and numeric `required` discount amount:
      an empty code, or an amount that is missing or not a number, fails the save. */
  predicate SavablePromo(input: PromoInput) {
    input.code != "" && input.discountAmount.Number?
  }

  /** Creates a promo code. Only an admin may; a code already used within the
      caller's company is refused; a body the schema rejects fails the save
      (500) and changes nothing; otherwise one promo, owned by the caller and
      the caller's company, is appended. */
  method CreatePromoCode(db: Database, actor: Actor, input: PromoInput, now: Time) returns (r: Result<Promo, PromoError>)
    modifies db`promos, db`nextId
    ensures actor.role != Admin ==> r == Failure(OnlyAdmin) && db.promos == old(db.promos)
    ensures actor.role == Admin && CodeTakenInCompany(old(db.promos), input.code, actor.companyId) ==>
      r == Failure(CodeExistsInCompany) && db.promos == old(db.promos)
    ensures actor.role == Admin && !CodeTakenInCompany(old(db.promos), input.code, actor.companyId) && !SavablePromo(input) ==>
      r == Failure(PromoRejectedOnSave) && db.promos == old(db.promos)
    ensures actor.role == Admin && !CodeTakenInCompany(old(db.promos), input.code, actor.companyId) && SavablePromo(input) ==>
      && r == Success(Promo(old(db.nextId), input.code, input.discountAmount.value, input.discountType, input.description,
                            actor.id, actor.companyId, input.expiresAt, InitialActive(input.isActive, input.expiresAt, now)))
      && db.promos == old(db.promos) + [r.value]
  {
    if actor.role != Admin {
      return Failure(OnlyAdmin);
    }
    var existing := FirstWhere(db.promos, (p: Promo) => p.code == input.code && p.companyId == actor.companyId);
    FirstWhereFirst(db.promos, (p: Promo) => p.code == input.code && p.companyId == actor.companyId);
    if existing.Some? {
      return Failure(CodeExistsInCompany);
    }
    var active := if input.isActive.Some? then input.isActive.value else true;
    if input.expiresAt.Some? && input.expiresAt.value <= now {
      active := false;
    }
    if !SavablePromo(input) {
      return Failure(PromoRejectedOnSave);
    }
    var id := db.FreshId();
    var promo := Promo(id, input.code, input.discountAmount.value, input.discountType, input.description,
                       actor.id, actor.companyId, input.expiresAt, active);
    db.promos := db.promos + [promo];
    r := Success(promo);
  }

  /** The body of an update request: `None` is a field left out. A supplied
      `expiresAt` may itself be `null`, which clears the expiry. */
  datatype PromoPatch = PromoPatch(
    code: Option<string>,
    discountAmount: Option<real>,
    discountType: Option<DiscountType>,
    description: Option<string>,
    expiresAt: Option<Option<Time>>,
    isActive: Option<bool>)

  /** The promo after an update: each supplied field overwrites, and a promo
      whose expiry has then passed is switched off. */
  function Patched(p: Promo, patch: PromoPatch, now: Time): Promo {
    var q := p.(
      code := if patch.code.Some? then patch.code.value else p.code,
      discountAmount := if patch.discountAmount.Some? then patch.discountAmount.value else p.discountAmount,
      discountType := if patch.discountType.Some? then patch.discountType.value else p.discountType,
      description := if patch.description.Some? then patch.description.value else p.description,
      expiresAt := if patch.expiresAt.Some? then patch.expiresAt.value else p.expiresAt,
      isActive := if patch.isActive.Some? then patch.isActive.value else p.isActive);
    if PastExpiry(q, now) then q.(isActive := false) else q
  }

  /** Only the supplied fields change, the owner and company never do, and an
      expired promo ends up inactive whatever the request said. */
  lemma PatchedOverwritesSuppliedFields(p: Promo, patch: PromoPatch, now: Time)
    ensures var r := Patched(p, patch, now);
      && r.id == p.id && r.createdBy == p.createdBy && r.companyId == p.companyId
      && r.code == (if patch.code.Some? then patch.code.value else p.code)
      && r.discountAmount == (if patch.discountAmount.Some? then patch.discountAmount.value else p.discountAmount)
      && r.discountType == (if patch.discountType.Some? then patch.discountType.value else p.discountType)
      && r.description == (if patch.description.Some? then patch.description.value else p.description)
      && r.expiresAt == (if patch.expiresAt.Some? then patch.expiresAt.value else p.expiresAt)
      && (PastExpiry(r, now) ==> !r.isActive)
      && (!PastExpiry(r, now) ==> r.isActive == (if patch.isActive.Some? then patch.isActive.value else p.isActive))
  {
  }

  /** A patch that supplies nothing changes only the active flag, and that only
      to switch off an expired promo. */
  lemma EmptyPatchOnlyExpires(p: Promo, now: Time)
    ensures Patched(p, PromoPatch(None, None, None, None, None, None), now) ==
            (if PastExpiry(p, now) then p.(isActive := false) else p)
  {
  }

  /** `PromoCode.findOne({ code })`: the code is held by some promo in any company. */
  predicate CodeTaken(promos: seq<Promo>, code: string) {
    exists k :: 0 <= k < |promos| && promos[k].code == code
  }

  /** Updates a promo code. Only an admin may; an unknown id is a 404; a new,
      non-empty code that any promo already holds is refused; otherwise the
      promo is replaced by its patched version. */
  method UpdatePromoCode(db: Database, actor: Actor, id: Id, patch: PromoPatch, now: Time) returns (r: Result<Promo, PromoError>)
    modifies db`promos
    ensures actor.role != Admin ==> r == Failure(OnlyAdmin) && db.promos == old(db.promos)
    ensures actor.role == Admin ==>
      match FirstWhere(old(db.promos), (p: Promo) => p.id == id)
      case None => r == Failure(PromoNotFound) && db.promos == old(db.promos)
      case Some(k) =>
        if Truthy(patch.code) && patch.code.value != old(db.promos)[k].code && CodeTaken(old(db.promos), patch.code.value) then
          r == Failure(CodeExists) && db.promos == old(db.promos)
        else
          && r == Success(Patched(old(db.promos)[k], patch, now))
          && db.promos == old(db.promos)[k := r.value]
  {
    if actor.role != Admin {
      return Failure(OnlyAdmin);
    }
    var found := FirstWhere(db.promos, (p: Promo) => p.id == id);
    if found.None? {
      return Failure(PromoNotFound);
    }
    var k := found.value;
    var promo := db.promos[k];
    if Truthy(patch.code) && patch.code.value != promo.code {
      var existing := FirstWhere(db.promos, (p: Promo) => p.code == patch.code.value);
      FirstWhereFirst(db.promos, (p: Promo) => p.code == patch.code.value);
      if existing.Some? {
        return Failure(CodeExists);
      }
    }
    promo := Patched(promo, patch, now);
    db.promos := db.promos[k := promo];
    r := Success(promo);
  }

  /** Sets the active flag of a promo. `None` is a request whose `isActive` is
      not a boolean, refused before the lookup; otherwise exactly that field of
      the promo changes. No role is checked. */
  method SetPromoCodeStatus(db: Database, id: Id, isActive: Option<bool>) returns (r: Result<Promo, PromoError>)
    modifies db`promos
    ensures isActive.None? ==> r == Failure(IsActiveNotBoolean) && db.promos == old(db.promos)
    ensures isActive.Some? ==>
      match FirstWhere(old(db.promos), (p: Promo) => p.id == id)
      case None => r == Failure(PromoNotFound) && db.promos == old(db.promos)
      case Some(k) =>
        && r == Success(old(db.promos)[k].(isActive := isActive.value))
        && db.promos == old(db.promos)[k := r.value]
  {
    if isActive.None? {
      return Failure(IsActiveNotBoolean);
    }
    var found := FirstWhere(db.promos, (p: Promo) => p.id == id);
    if found.None? {
      return Failure(PromoNotFound);
    }
    var k := found.value;
    var promo := db.promos[k].(isActive := isActive.value);
    db.promos := db.promos[k := promo];
    r := Success(promo);
  }

  // ---------------------------------------------------------------------------
  // Listing
  // ---------------------------------------------------------------------------

  /** The filter of getActiveCodes: active, and expiring strictly after now or never. */
  predicate Listed(p: Promo, now: Time) {
    p.isActive && (p.expiresAt.None? || p.expiresAt.value > now)
  }

  /** The promos getActiveCodes returns, in collection order: exactly those that
      pass the filter. */
  function ActiveCodes(promos: seq<Promo>, now: Time): (r: seq<Promo>)
    ensures forall p :: p in r <==> p in promos && Listed(p, now)
    ensures |r| <= |promos|
  {
    FilterMembers(promos, (p: Promo) => Listed(p, now));
    Filter(promos, (p: Promo) => Listed(p, now))
  }

  /** After the sweep, every listed code is one the sweep left alone: the listing
      filter and the sweep's filter never both hold. */
  lemma ListedNeverLapsed(p: Promo, now: Time)
    ensures Listed(p, now) ==> !Lapsed(p, now)
    ensures Lapsed(p, now) ==> !Listed(Swept(p, now), now)
  {
  }

  /** getAllPromoCodes runs the expiry sweep and then returns the whole collection. */
  method GetAllPromoCodes(db: Database, now: Time) returns (r: seq<Promo>)
    modifies db`promos
    ensures db.promos == Sweep(old(db.promos), now)
    ensures r == db.promos
  {
    var _ := SweepPromoCollection(db, now);
    r := db.promos;
  }
}
