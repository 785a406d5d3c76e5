/** The payment bridge (controllers/paymentController.js): creating a gateway
    order and its local Payment record, verifying a completed payment and
    settling the Payment and its Order together, and reading one payment. The
    gateway's order creation and payment lookup, and the HMAC-SHA256 signature
    under the server's key secret, are parameters of the handlers. */
module PaymentController {
  import opened Common
  import opened Models
  import opened Store

  datatype PaymentError =
    | MethodRequired
    | InvalidMethod
    | CreateFailed
    | VerificationFailed
    | VerifyFailed
    | PaymentRecordNotFound
    | OrderNotFound
    | PaymentNotFound
    | NoPermission
    | FetchFailed
  {
    function Status(): nat {
      match this
      case MethodRequired => 400
      case InvalidMethod => 400
      case VerificationFailed => 400
      case PaymentRecordNotFound => 404
      case OrderNotFound => 404
      case PaymentNotFound => 404
      case NoPermission => 403
      case _ => 500
    }
  }

  // ---------------------------------------------------------------------------
  // createOrder
  // ---------------------------------------------------------------------------

  /** The payment methods the handler accepts, which are also the schema's enum. */
  const Methods: set<string> := {"card", "upi", "qr", "netbanking", "wallet"}

  /** The method guard: a missing or empty method, then one outside the list. */
  function CheckMethod(paymentMethod: Option<string>): (r: Result<string, PaymentError>)
    ensures r.Success? <==> paymentMethod.Some? && paymentMethod.value in Methods
    ensures r.Success? ==> r.value == paymentMethod.value
    ensures r == Failure(MethodRequired) <==> !Truthy(paymentMethod)
  {
    if !Truthy(paymentMethod) then Failure(MethodRequired)
    else if paymentMethod.value !in Methods then Failure(InvalidMethod)
    else Success(paymentMethod.value)
  }

  /** The gateway's amount: the order amount in minor units (paise). */
  function MinorUnits(amount: real): real {
    amount * 100.0
  }

  /** The conversion to minor units loses nothing and keeps amounts in order. */
  lemma MinorUnitsFaithful(a: real, b: real)
    ensures MinorUnits(a) / 100.0 == a
    ensures a < b <==> MinorUnits(a) < MinorUnits(b)
  {
  }

  /** What createOrder asks the gateway for. */
  datatype GatewayOrder = GatewayOrder(amount: real, currency: string, receipt: Option<Id>)

  /** `currency = 'INR'` when the body has none. */
  function CurrencyOf(currency: Option<string>): string {
    if currency.Some? then currency.value else "INR"
  }

  /** createOrder: after the method guard, the gateway order is placed (its id,
      or `None` when the gateway call throws), and a Payment in state `created`
      records the caller, the local order, the amount as given and the gateway
      order id. A request without an order id fails the Payment's validation. */
  method CreateOrder(db: Database, actor: Actor, amount: real, currency: Option<string>, orderId: Option<Id>,
                     paymentMethod: Option<string>, gateway: GatewayOrder -> Option<string>)
    returns (r: Result<Payment, PaymentError>)
    modifies db`payments, db`nextId
    ensures CheckMethod(paymentMethod).Failure? ==>
      r == Failure(CheckMethod(paymentMethod).error) && db.payments == old(db.payments) && db.nextId == old(db.nextId)
    ensures CheckMethod(paymentMethod).Success? ==>
      var placed := gateway(GatewayOrder(MinorUnits(amount), CurrencyOf(currency), orderId));
      if placed.None? || orderId.None? then
        r == Failure(CreateFailed) && db.payments == old(db.payments) && db.nextId == old(db.nextId)
      else
        && r == Success(Payment(old(db.nextId), orderId.value, placed.value, None, actor.id, amount,
                                CurrencyOf(currency), Created, paymentMethod.value, Preferred(paymentMethod.value)))
        && db.payments == old(db.payments) + [r.value]
        && db.nextId == old(db.nextId) + 1
  {
    var checked := CheckMethod(paymentMethod);
    if checked.Failure? {
      return Failure(checked.error);
    }
    var method_ := checked.value;
    var cur := CurrencyOf(currency);
    var placed := gateway(GatewayOrder(MinorUnits(amount), cur, orderId));
    if placed.None? || orderId.None? {
      return Failure(CreateFailed);
    }
    var id := db.FreshId();
    var payment := Payment(id, orderId.value, placed.value, None, actor.id, amount, cur, Created, method_, Preferred(method_));
    db.payments := db.payments + [payment];
    r := Success(payment);
  }

  // ---------------------------------------------------------------------------
  // verifyPayment: signature gate, then Payment and Order in one transaction
  // ---------------------------------------------------------------------------

  /** What the gateway reports about a payment (`razorpay.payments.fetch`). */
  datatype GatewayPayment = GatewayPayment(
    reportedMethod: Option<string>,
    bank: Option<string>,
    wallet: Option<string>,
    vpa: Option<string>,
    cardNetwork: Option<string>,
    cardType: Option<string>)

  /** The signed text: the gateway order id, a bar, the gateway payment id. */
  function SignedBody(orderId: string, paymentId: string): (r: string)
    ensures |r| == |orderId| + 1 + |paymentId|
  {
    orderId + "|" + paymentId
  }

  /** When order ids contain no bar, as gateway ids do not, the signed text
      determines the pair, so a signature for one payment never vouches for another. */
  lemma SignedBodyDeterminesPair(o1: string, p1: string, o2: string, p2: string)
    requires '|' !in o1 && '|' !in o2
    requires SignedBody(o1, p1) == SignedBody(o2, p2)
    ensures o1 == o2 && p1 == p2
  {
    var b := SignedBody(o1, p1);
    BarEndsOrderId(o1, p1, o2, p2);
    BarEndsOrderId(o2, p2, o1, p1);
    assert o1 == b[..|o1|] == o2;
    assert p1 == b[|o1| + 1..] == p2;
  }

  /** The first bar of the signed text ends the order id, so the order id of
      an equal text is no longer than this one. */
  lemma BarEndsOrderId(o1: string, p1: string, o2: string, p2: string)
    requires '|' !in o2
    requires SignedBody(o1, p1) == SignedBody(o2, p2)
    ensures |o2| <= |o1|
  {
    if |o1| < |o2| {
      SignedBodyAt(o1, p1, |o1|);
      SignedBodyAt(o2, p2, |o1|);
      assert false;
    }
  }

  /** Character `i` of the signed text comes from the order id, or is the bar. */
  lemma SignedBodyAt(o: string, p: string, i: int)
    ensures 0 <= i < |o| ==> SignedBody(o, p)[i] == o[i]
    ensures i == |o| ==> SignedBody(o, p)[i] == '|'
  {
  }

  /** `x || null` on an optional string. */
  function OrNull(s: Option<string>): Option<string> {
    if Truthy(s) then s else None
  }

  /** The Payment after `findOneAndUpdate`: the gateway payment id, state `paid`,
      the reported method or "card" when none is reported, and the reported details. */
  function Recorded(p: Payment, paymentId: string, d: GatewayPayment): (r: Payment)
    ensures r.id == p.id && r.gatewayOrderId == p.gatewayOrderId && r.orderId == p.orderId
    ensures r.status == Paid && r.gatewayPaymentId == Some(paymentId) && r.paymentMethod != ""
  {
    p.(gatewayPaymentId := Some(paymentId),
       status := Paid,
       paymentMethod := if Truthy(d.reportedMethod) then d.reportedMethod.value else "card",
       details := Reported(d.reportedMethod, d.bank, d.wallet, d.vpa, OrNull(d.cardNetwork), OrNull(d.cardType)))
  }

  /** The first Payment created for this gateway order. */
  function PaymentForGatewayOrder(payments: seq<Payment>, orderId: string): (r: Option<nat>)
    ensures r.Some? ==> r.value < |payments| && payments[r.value].gatewayOrderId == orderId
  {
    FirstWhere(payments, (p: Payment) => p.gatewayOrderId == orderId)
  }

  /** Which Payment becomes which record, and which Order it completes. */
  datatype Settlement = Settlement(payment: nat, updated: Payment, order: nat)

  /** The decision of verifyPayment. `sign` computes the expected signature;
      `fetched` is the gateway's answer, `None` when the fetch throws. */
  function Settle(payments: seq<Payment>, orders: seq<Order>, orderId: string, paymentId: string, signature: string,
                  sign: string -> string, fetched: Option<GatewayPayment>)
    : (r: Result<Settlement, PaymentError>)
    ensures r.Success? ==> r.value.payment < |payments| && r.value.order < |orders|
  {
    if sign(SignedBody(orderId, paymentId)) != signature then Failure(VerificationFailed)
    else if fetched.None? then Failure(VerifyFailed)
    else match PaymentForGatewayOrder(payments, orderId)
      case None => Failure(PaymentRecordNotFound)
      case Some(k) =>
        var updated := Recorded(payments[k], paymentId, fetched.value);
        match OrderAt(orders, updated.orderId)
        case None => Failure(OrderNotFound)
        case Some(o) => Success(Settlement(k, updated, o))
  }

  /** The two collections after a commit. */
  function Committed(payments: seq<Payment>, orders: seq<Order>, s: Settlement): (seq<Payment>, seq<Order>)
    requires s.payment < |payments| && s.order < |orders|
  {
    (payments[s.payment := s.updated], orders[s.order := orders[s.order].(paymentStatus := Completed)])
  }

  /** A mismatched signature is refused before anything else happens, so every
      settlement carries the signature over exactly its gateway order and payment ids. */
  lemma SettleNeedsSignature(payments: seq<Payment>, orders: seq<Order>, orderId: string, paymentId: string,
                             signature: string, sign: string -> string, fetched: Option<GatewayPayment>)
    ensures sign(SignedBody(orderId, paymentId)) != signature ==>
      Settle(payments, orders, orderId, paymentId, signature, sign, fetched) == Failure(VerificationFailed)
    ensures Settle(payments, orders, orderId, paymentId, signature, sign, fetched).Success? ==>
      sign(SignedBody(orderId, paymentId)) == signature && fetched.Some?
  {
  }

  /** A settlement takes the first Payment of the gateway order, marks it paid
      with the payment id and the reported method (or "card"), keeps its owner,
      order, amount and currency, and completes the Order it names. */
  lemma SettleRecordsPaid(payments: seq<Payment>, orders: seq<Order>, orderId: string, paymentId: string,
                          signature: string, sign: string -> string, fetched: Option<GatewayPayment>)
    requires Settle(payments, orders, orderId, paymentId, signature, sign, fetched).Success?
    ensures var s := Settle(payments, orders, orderId, paymentId, signature, sign, fetched).value;
      var before := payments[s.payment];
      && before.gatewayOrderId == orderId
      && (forall k :: 0 <= k < s.payment ==> payments[k].gatewayOrderId != orderId)
      && s.updated.status == Paid
      && s.updated.gatewayPaymentId == Some(paymentId)
      && s.updated.paymentMethod == (if Truthy(fetched.value.reportedMethod) then fetched.value.reportedMethod.value else "card")
      && s.updated.(gatewayPaymentId := before.gatewayPaymentId, status := before.status,
                    paymentMethod := before.paymentMethod, details := before.details) == before
      && orders[s.order].id == before.orderId
  {
    FirstWhereFirst(payments, (p: Payment) => p.gatewayOrderId == orderId);
  }

  /** The Order's prior status plays no part: a Refunded or Failed order is
      completed just like a Pending one. */
  lemma SettleIgnoresOrderStatus(payments: seq<Payment>, orders: seq<Order>, o: nat, status: PaymentStatus,
                                 orderId: string, paymentId: string, signature: string,
                                 sign: string -> string, fetched: Option<GatewayPayment>)
    requires o < |orders|
    ensures Settle(payments, orders[o := orders[o].(paymentStatus := status)], orderId, paymentId, signature, sign, fetched)
         == Settle(payments, orders, orderId, paymentId, signature, sign, fetched)
  {
    var changed := orders[o := orders[o].(paymentStatus := status)];
    forall id: Id {
      FirstWhereAgrees(changed, orders, (x: Order) => x.id == id);
    }
  }

  /** Verifying the same payment again after a commit settles the same records
      the same way, so the second commit changes nothing. */
  lemma SettleAgainChangesNothing(payments: seq<Payment>, orders: seq<Order>, orderId: string, paymentId: string,
                                  signature: string, sign: string -> string, fetched: Option<GatewayPayment>)
    requires Settle(payments, orders, orderId, paymentId, signature, sign, fetched).Success?
    ensures var s := Settle(payments, orders, orderId, paymentId, signature, sign, fetched).value;
      var (ps, os) := Committed(payments, orders, s);
      && Settle(ps, os, orderId, paymentId, signature, sign, fetched) == Success(s)
      && Committed(ps, os, s) == (ps, os)
  {
    var s := Settle(payments, orders, orderId, paymentId, signature, sign, fetched).value;
    var (ps, os) := Committed(payments, orders, s);
    FirstWhereAgrees(ps, payments, (p: Payment) => p.gatewayOrderId == orderId);
    SettleIgnoresOrderStatus(payments, orders, s.order, Completed, orderId, paymentId, signature, sign, fetched);
    FirstWhereAgrees(os, orders, (x: Order) => x.id == s.updated.orderId);
    assert Recorded(s.updated, paymentId, fetched.value) == s.updated;
    assert PaymentForGatewayOrder(ps, orderId) == Some(s.payment);
    assert OrderAt(os, s.updated.orderId) == Some(s.order);
    assert Committed(ps, os, s).0 == ps;
    assert Committed(ps, os, s).1 == os;
  }

  /** verifyPayment: the Payment is updated first and the Order second inside a
      transaction; an Order that cannot be found aborts it, which rolls the
      Payment back. So either both records change, the Payment to `paid` and the
      Order to Completed, or neither does. */
  method VerifyPayment(db: Database, orderId: string, paymentId: string, signature: string,
                       sign: string -> string, fetched: Option<GatewayPayment>)
    returns (r: Result<(Payment, Order), PaymentError>)
    modifies db`payments, db`orders
    ensures match Settle(old(db.payments), old(db.orders), orderId, paymentId, signature, sign, fetched)
      case Failure(e) => r == Failure(e) && db.payments == old(db.payments) && db.orders == old(db.orders)
      case Success(s) =>
        && r == Success((s.updated, old(db.orders)[s.order].(paymentStatus := Completed)))
        && (db.payments, db.orders) == Committed(old(db.payments), old(db.orders), s)
  {
    if sign(SignedBody(orderId, paymentId)) != signature {
      return Failure(VerificationFailed);
    }
    if fetched.None? {
      return Failure(VerifyFailed);
    }
    var found := PaymentForGatewayOrder(db.payments, orderId);
    if found.None? {
      return Failure(PaymentRecordNotFound);
    }
    var k := found.value;
    var before := db.payments;
    var payment := Recorded(db.payments[k], paymentId, fetched.value);
    db.payments := db.payments[k := payment];
    var o := OrderAt(db.orders, payment.orderId);
    if o.None? {
      db.payments := before;
      return Failure(OrderNotFound);
    }
    var order := db.orders[o.value].(paymentStatus := Completed);
    db.orders := db.orders[o.value := order];
    r := Success((payment, order));
  }

  // ---------------------------------------------------------------------------
  // getPaymentById
  // ---------------------------------------------------------------------------

  /** The Payment with this id, if any (`Payment.findById`). */
  function PaymentAt(payments: seq<Payment>, id: Id): (r: Option<nat>)
    ensures r.Some? ==> r.value < |payments| && payments[r.value].id == id
  {
    FirstWhere(payments, (p: Payment) => p.id == id)
  }

  /** getPaymentById as written: the owner test reads `req.user._id`, which the
      token middleware never sets (it sets `id`), so `toString` on it throws and
      every payment that exists ends in a 500. */
  function GetPaymentByIdAsWritten(payments: seq<Payment>, actor: Actor, id: Id): (r: Result<Payment, PaymentError>)
    ensures r.Failure?
    ensures r.error == PaymentNotFound <==> PaymentAt(payments, id).None?
  {
    match PaymentAt(payments, id)
    case None => Failure(PaymentNotFound)
    case Some(_) => Failure(FetchFailed)
  }

  /** Example: as written, even the owner cannot read their own payment. */
  lemma OwnerLockedOutAsWritten()
    ensures var p := Payment(5, 9, "order_A", None, 1, 100.0, "INR", Created, "card", Preferred("card"));
      GetPaymentByIdAsWritten([p], Actor(1, Employee, Some(2)), 5) == Failure(FetchFailed)
  {
  }

  /** getPaymentById as intended: the payment is returned to its owner, the
      caller whose `id` it records, and refused with 403 to anyone else. */
  function GetPaymentById(payments: seq<Payment>, actor: Actor, id: Id): (r: Result<Payment, PaymentError>)
    ensures r.Success? ==> r.value.id == id && r.value.userId == actor.id && r.value in payments
  {
    match PaymentAt(payments, id)
    case None => Failure(PaymentNotFound)
    case Some(k) => if payments[k].userId != actor.id then Failure(NoPermission) else Success(payments[k])
  }

  /** A payment is handed out exactly when it exists and belongs to the caller;
      a payment of someone else is a 403, never its contents. */
  lemma GetPaymentByIdOwnerOnly(payments: seq<Payment>, actor: Actor, id: Id)
    ensures var found := PaymentAt(payments, id);
      && (GetPaymentById(payments, actor, id).Success? <==> found.Some? && payments[found.value].userId == actor.id)
      && (found.Some? && payments[found.value].userId != actor.id ==> GetPaymentById(payments, actor, id) == Failure(NoPermission))
      && (found.None? <==> GetPaymentById(payments, actor, id) == Failure(PaymentNotFound))
  {
  }
}
