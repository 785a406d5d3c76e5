/** The persisted documents (the Mongoose schemas under models/), as values. */
module Models {
  import opened Common

  /** One ticket tier embedded in an event: a name, a unit price and the
      remaining count, which orders decrement and restore. */
  datatype Tier = Tier(id: Id, name: string, description: string, price: real, quantity: real)

  datatype Faq = Faq(id: Id, title: string, description: string)

  datatype View = Public | Private

  /** An event; `capacity` is the schema's `quantity` field, unset until the
      details step fills it in. */
  datatype Event = Event(
    id: Id,
    name: string,
    description: string,
    view: View,
    capacity: Option<real>,
    tiers: seq<Tier>,
    faqs: seq<Faq>,
    createdBy: Id)

  /** The event with this id, if any (`Event.findById`). */
  function EventAt(events: seq<Event>, id: Id): (r: Option<nat>)
    ensures r.Some? ==> r.value < |events| && events[r.value].id == id
  {
    FirstWhere(events, (e: Event) => e.id == id)
  }

  datatype PaymentStatus = Pending | Completed | Failed | Refunded

  /** The schema enum of `paymentStatus`; any other string fails validation on save. */
  function ParsePaymentStatus(s: string): (r: Option<PaymentStatus>)
    ensures r.None? <==> s !in {"Pending", "Completed", "Failed", "Refunded"}
  {
    if s == "Pending" then Some(Pending)
    else if s == "Completed" then Some(Completed)
    else if s == "Failed" then Some(Failed)
    else if s == "Refunded" then Some(Refunded)
    else None
  }

  /** The order with this id, if any (`Order.findById`). */
  function OrderAt(orders: seq<Order>, id: Id): (r: Option<nat>)
    ensures r.Some? ==> r.value < |orders| && orders[r.value].id == id
  {
    FirstWhere(orders, (o: Order) => o.id == id)
  }

  /** A line of an order: a snapshot of the tier id, name, count and unit amount. */
  datatype OrderLine = OrderLine(ticketId: Id, ticketName: string, quantity: real, amount: real)

  datatype Order = Order(
    id: Id,
    eventId: Id,
    lines: seq<OrderLine>,
    totalAmount: real,
    userId: Id,
    companyId: Id,
    paymentStatus: PaymentStatus,
    createdAt: Time)

  /** `discountType` is an optional enum: `Untyped` is a promo saved without one. */
  datatype DiscountType = Flat | Percent | Untyped

  datatype Promo = Promo(
    id: Id,
    code: string,
    discountAmount: real,
    discountType: DiscountType,
    description: string,
    createdBy: Id,
    companyId: Option<Id>,
    expiresAt: Option<Time>,
    isActive: bool)

  /** A redemption of a promo code by a user (a PromoCodeUsage document). */
  datatype Usage = Usage(userId: Id, promoId: Id, usedAt: Time)

  datatype PaymentState = Created | Paid | Declined

  /** `paymentMethodDetails`: the preferred method recorded at creation, or what the
      gateway reported after a verified payment. */
  datatype MethodDetails =
    | Preferred(preferredMethod: string)
    | Reported(gatewayMethod: Option<string>, bank: Option<string>, wallet: Option<string>,
               vpa: Option<string>, cardNetwork: Option<string>, cardType: Option<string>)

  datatype Payment = Payment(
    id: Id,
    orderId: Id,
    gatewayOrderId: string,
    gatewayPaymentId: Option<string>,
    userId: Id,
    amount: real,
    currency: string,
    status: PaymentState,
    paymentMethod: string,
    details: MethodDetails)

  datatype Priority = High | Medium | Low | Critical

  datatype Task = Task(
    id: Id,
    taskName: string,
    description: string,
    assignBy: Id,
    assignTo: Id,
    priority: Priority,
    startDate: Time,
    endDate: Time,
    isCompleted: bool,
    isVerified: bool)

  /** A user; `password` holds the bcrypt hash. */
  datatype User = User(id: Id, username: string, email: string, password: string, role: Role, companyId: Option<Id>)

  /** The user with this id, if any (`User.findById`). */
  function UserAt(users: seq<User>, id: Id): (r: Option<nat>)
    ensures r.Some? ==> r.value < |users| && users[r.value].id == id
  {
    FirstWhere(users, (u: User) => u.id == id)
  }

  /** The user with this email, if any (`User.findOne({ email })`). */
  function EmailOwner(users: seq<User>, email: string): (r: Option<nat>)
    ensures r.Some? ==> r.value < |users| && users[r.value].email == email
  {
    FirstWhere(users, (u: User) => u.email == email)
  }

  /** No two users share an email (the schema's unique index). */
  predicate UniqueEmails(users: seq<User>) {
    forall i, j :: 0 <= i < j < |users| ==> users[i].email != users[j].email
  }

  /** Adding a user whose email no one holds keeps the emails unique. */
  lemma FreshEmailKeepsUnique(users: seq<User>, u: User)
    requires UniqueEmails(users) && EmailOwner(users, u.email).None?
    ensures UniqueEmails(users + [u])
  {
    FirstWhereFirst(users, (x: User) => x.email == u.email);
    forall i, j | 0 <= i < j < |users + [u]|
      ensures (users + [u])[i].email != (users + [u])[j].email
    {
      if j == |users| {
        assert (users + [u])[j] == u;
        assert (users + [u])[i] == users[i];
      } else {
        assert (users + [u])[i] == users[i] && (users + [u])[j] == users[j];
      }
    }
  }

  datatype Company = Company(id: Id, name: string, kind: string, description: string)
}
