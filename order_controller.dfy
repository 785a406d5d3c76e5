/** The order core (controllers/orderController.js): creating an order reserves
    tier inventory line by line, editing an order rebooks signed deltas and
    reprices at the current tier price, deleting an order gives the inventory
    back, and the preview quotes a discounted total. */
module OrderController {
  import opened Common
  import opened Models
  import opened Inventory
  import opened PromoPricing
  import opened Store

  /** One requested line of `req.body.tickets`, before validation. */
  datatype LineRequest = LineRequest(ticketId: Option<Id>, ticketName: Option<string>, quantity: Field, amount: Field)

  /** One line of the `updateOrder` request: the tier and its new count. */
  datatype TicketEdit = TicketEdit(ticketId: Id, quantity: real)

  datatype OrderError =
    | EventAndTicketsRequired
    | CompanyIdMissing
    | EventNotFound
    | LineFieldsRequired
    | QuantityNotPositive
    | AmountNegative
    | TicketNotInEvent
    | NotEnoughTickets
    | TicketsRequired
    | OrderNotFound
    | NotAuthorized
    | AssociatedEventNotFound
    | InvalidTicketId
    | NotEnoughForEdit
    | OrderRejectedOnSave
  {
    /** The HTTP status the handler answers with. */
    function Status(): nat {
      match this
      case EventNotFound | OrderNotFound | AssociatedEventNotFound => 404
      case NotAuthorized => 403
      case InvalidTicketId | NotEnoughForEdit | OrderRejectedOnSave => 500
      case _ => 400
    }
  }

  /** The tiers of an event after a request, and the order lines it produced. */
  datatype Booking = Booking(tiers: seq<Tier>, lines: seq<OrderLine>)

  // ---------------------------------------------------------------------------
  // createOrderSummary: validation and reservation, line by line
  // ---------------------------------------------------------------------------

  /** A request line with all four fields, a positive numeric count and a
      non-negative numeric amount. */
  predicate WellFormed(req: LineRequest) {
    && req.ticketId.Some? && req.ticketName.Some?
    && req.quantity.Number? && req.quantity.value > 0.0
    && req.amount.Number? && req.amount.value >= 0.0
  }

  /** The checks of one loop iteration, in the handler's order, against the tier
      counts as earlier lines have already reduced them. */
  function CheckLine(tiers: seq<Tier>, req: LineRequest): (r: Result<OrderLine, OrderError>)
    ensures r.Success? <==> WellFormed(req) && TierAt(tiers, req.ticketId.value).Some?
                            && tiers[TierAt(tiers, req.ticketId.value).value].quantity >= req.quantity.value
    ensures r.Success? ==> r.value == OrderLine(req.ticketId.value, req.ticketName.value, req.quantity.value, req.amount.value)
  {
    if req.ticketId.None? || req.ticketName.None? || req.quantity.Absent? || req.amount.Absent? then
      Failure(LineFieldsRequired)
    else if !req.quantity.Number? || req.quantity.value <= 0.0 then Failure(QuantityNotPositive)
    else if !req.amount.Number? || req.amount.value < 0.0 then Failure(AmountNegative)
    else match TierAt(tiers, req.ticketId.value)
      case None => Failure(TicketNotInEvent)
      case Some(k) =>
        if tiers[k].quantity < req.quantity.value then Failure(NotEnoughTickets)
        else Success(OrderLine(req.ticketId.value, req.ticketName.value, req.quantity.value, req.amount.value))
  }

  /** Puts `lines` in front of the lines of a successful booking. */
  function Prefixed(lines: seq<OrderLine>, r: Result<Booking, OrderError>): Result<Booking, OrderError> {
    match r
    case Failure(e) => Failure(e)
    case Success(b) => Success(Booking(b.tiers, lines + b.lines))
  }

  lemma PrefixedNothing(r: Result<Booking, OrderError>)
    ensures Prefixed([], r) == r
  {
    if r.Success? {
      assert [] + r.value.lines == r.value.lines;
    }
  }

  lemma PrefixedTwice(a: seq<OrderLine>, b: seq<OrderLine>, r: Result<Booking, OrderError>)
    ensures Prefixed(a, Prefixed(b, r)) == Prefixed(a + b, r)
  {
    if r.Success? {
      assert a + (b + r.value.lines) == (a + b) + r.value.lines;
    }
  }

  /** The whole `for` loop of createOrderSummary: each line is checked and then
      taken off its tier before the next line is looked at; the first failing
      line decides the error. A success has one line per request and as many
      tiers as before. */
  function Reserve(tiers: seq<Tier>, reqs: seq<LineRequest>): (r: Result<Booking, OrderError>)
    ensures r.Success? ==> |r.value.tiers| == |tiers| && |r.value.lines| == |reqs|
    decreases |reqs|
  {
    if reqs == [] then Success(Booking(tiers, []))
    else match CheckLine(tiers, reqs[0])
      case Failure(e) => Failure(e)
      case Success(line) => Prefixed([line], Reserve(Shift(tiers, line.ticketId, -line.quantity), reqs[1..]))
  }

  /** The loop itself, on a working copy of the event's tiers. */
  method ReserveTickets(tiers: seq<Tier>, reqs: seq<LineRequest>) returns (r: Result<Booking, OrderError>)
    ensures r == Reserve(tiers, reqs)
  {
    var cur := tiers;
    var taken: seq<OrderLine> := [];
    var i := 0;
    assert reqs[0..] == reqs;
    PrefixedNothing(Reserve(tiers, reqs));
    while i < |reqs|
      invariant 0 <= i <= |reqs|
      invariant Reserve(tiers, reqs) == Prefixed(taken, Reserve(cur, reqs[i..]))
    {
      var checked := CheckLine(cur, reqs[i]);
      assert reqs[i..][0] == reqs[i] && reqs[i..][1..] == reqs[i + 1..];
      if checked.Failure? {
        return Failure(checked.error);
      }
      var line := checked.value;
      PrefixedTwice(taken, [line], Reserve(Shift(cur, line.ticketId, -line.quantity), reqs[i + 1..]));
      cur := Shift(cur, line.ticketId, -line.quantity);
      taken := taken + [line];
      i := i + 1;
    }
    assert reqs[i..] == [];
    assert taken + [] == taken;
    r := Success(Booking(cur, taken));
  }

  /** The moves that take each line's count off its tier. */
  function Debits(lines: seq<OrderLine>): (r: seq<Move>)
    ensures |r| == |lines|
    ensures forall k :: 0 <= k < |r| ==> r[k] == Move(lines[k].ticketId, -lines[k].quantity)
  {
    if lines == [] then [] else [Move(lines[0].ticketId, -lines[0].quantity)] + Debits(lines[1..])
  }

  /** The moves that give each line's count back to its tier (deleteOrder). */
  function Credits(lines: seq<OrderLine>): (r: seq<Move>)
    ensures |r| == |lines|
    ensures forall k :: 0 <= k < |r| ==> r[k] == Move(lines[k].ticketId, lines[k].quantity)
  {
    if lines == [] then [] else [Move(lines[0].ticketId, lines[0].quantity)] + Credits(lines[1..])
  }

  /** The line a well-formed request is stored as: the client's id, name, count
      and unit amount, copied as they are. */
  function LineOf(req: LineRequest): OrderLine
    requires WellFormed(req)
  {
    OrderLine(req.ticketId.value, req.ticketName.value, req.quantity.value, req.amount.value)
  }

  /** Every request is well formed. */
  ghost predicate AllWellFormed(reqs: seq<LineRequest>) {
    forall k :: 0 <= k < |reqs| ==> WellFormed(reqs[k])
  }

  /** The lines well-formed requests are stored as, one per request. */
  function LinesOf(reqs: seq<LineRequest>): (r: seq<OrderLine>)
    requires AllWellFormed(reqs)
    ensures |r| == |reqs|
    ensures forall k :: 0 <= k < |r| ==> r[k] == LineOf(reqs[k])
  {
    if reqs == [] then [] else [LineOf(reqs[0])] + LinesOf(reqs[1..])
  }

  /** A successful reservation served its first request: its line is in
      front and the rest was reserved on the debited tiers. */
  lemma ReserveCons(tiers: seq<Tier>, reqs: seq<LineRequest>)
    requires reqs != [] && Reserve(tiers, reqs).Success?
    ensures WellFormed(reqs[0]) && CheckLine(tiers, reqs[0]) == Success(LineOf(reqs[0]))
    ensures var line := LineOf(reqs[0]);
      var next := Shift(tiers, line.ticketId, -line.quantity);
      && Reserve(next, reqs[1..]).Success?
      && Reserve(tiers, reqs).value.lines == [line] + Reserve(next, reqs[1..]).value.lines
  {
  }

  /** The lines of a list of requests: the first request's, then the rest's. */
  lemma LinesOfCons(reqs: seq<LineRequest>)
    requires reqs != [] && WellFormed(reqs[0]) && AllWellFormed(reqs[1..])
    ensures AllWellFormed(reqs) && LinesOf(reqs) == [LineOf(reqs[0])] + LinesOf(reqs[1..])
  {
    assert forall k :: 1 <= k < |reqs| ==> reqs[k] == reqs[1..][k - 1];
  }

  /** A successful reservation stores every request, in order, as its own line. */
  lemma {:induction false} ReserveLines(tiers: seq<Tier>, reqs: seq<LineRequest>)
    requires Reserve(tiers, reqs).Success?
    ensures AllWellFormed(reqs) && Reserve(tiers, reqs).value.lines == LinesOf(reqs)
    decreases |reqs|
  {
    if reqs != [] {
      ReserveCons(tiers, reqs);
      var line := LineOf(reqs[0]);
      ReserveLines(Shift(tiers, line.ticketId, -line.quantity), reqs[1..]);
      LinesOfCons(reqs);
    }
  }

  /** The tiers of a successful reservation are the original tiers with every
      stored line's count debited, in line order. */
  lemma {:induction false} ReserveDebits(tiers: seq<Tier>, reqs: seq<LineRequest>)
    requires Reserve(tiers, reqs).Success?
    ensures Reserve(tiers, reqs).value.tiers == ApplyMoves(tiers, Debits(Reserve(tiers, reqs).value.lines))
    decreases |reqs|
  {
    if reqs != [] {
      var line := CheckLine(tiers, reqs[0]).value;
      var next := Shift(tiers, line.ticketId, -line.quantity);
      var rest := Reserve(next, reqs[1..]).value;
      ReserveDebits(next, reqs[1..]);
      var b := Reserve(tiers, reqs).value;
      assert b.lines == [line] + rest.lines;
      assert b.tiers == rest.tiers;
      var d := Debits(b.lines);
      assert d[0] == Move(line.ticketId, -line.quantity);
      assert d[1..] == Debits(rest.lines);
    }
  }

  /** The count the requests ask of tier `j` (only numeric counts contribute). */
  function Requested(tiers: seq<Tier>, reqs: seq<LineRequest>, j: nat): real
    decreases |reqs|
  {
    if reqs == [] then 0.0
    else (if reqs[0].ticketId.Some? && reqs[0].quantity.Number? && TierAt(tiers, reqs[0].ticketId.value) == Some(j)
          then reqs[0].quantity.value else 0.0)
         + Requested(tiers, reqs[1..], j)
  }

  lemma {:induction false} RequestedSameIds(a: seq<Tier>, b: seq<Tier>, reqs: seq<LineRequest>, j: nat)
    requires SameIds(a, b)
    ensures Requested(a, reqs, j) == Requested(b, reqs, j)
    decreases |reqs|
  {
    if reqs != [] {
      if reqs[0].ticketId.Some? { TierAtSameIds(a, b, reqs[0].ticketId.value); }
      RequestedSameIds(a, b, reqs[1..], j);
    }
  }

  lemma {:induction false} RequestedNonNegative(tiers: seq<Tier>, reqs: seq<LineRequest>, j: nat)
    requires AllWellFormed(reqs)
    ensures Requested(tiers, reqs, j) >= 0.0
    decreases |reqs|
  {
    if reqs != [] {
      assert forall k :: 0 <= k < |reqs[1..]| ==> reqs[1..][k] == reqs[k + 1];
      RequestedNonNegative(tiers, reqs[1..], j);
    }
  }

  /** Every request is well formed and names a tier of the event. */
  ghost predicate AllKnown(tiers: seq<Tier>, reqs: seq<LineRequest>) {
    forall k :: 0 <= k < |reqs| ==> WellFormed(reqs[k]) && TierAt(tiers, reqs[k].ticketId.value).Some?
  }

  /** No tier is asked for more in total than it has left. */
  ghost predicate Fits(tiers: seq<Tier>, reqs: seq<LineRequest>) {
    forall j :: 0 <= j < |tiers| ==> Requested(tiers, reqs, j) <= tiers[j].quantity
  }

  lemma AllKnownSameIds(a: seq<Tier>, b: seq<Tier>, reqs: seq<LineRequest>)
    requires SameIds(a, b)
    ensures AllKnown(a, reqs) == AllKnown(b, reqs)
  {
    forall k | 0 <= k < |reqs| && reqs[k].ticketId.Some?
      ensures TierAt(a, reqs[k].ticketId.value) == TierAt(b, reqs[k].ticketId.value)
    {
      TierAtSameIds(a, b, reqs[k].ticketId.value);
    }
  }

  /** For one tier, taking the first request off its tier leaves the rest
      within the reduced count exactly when all requests are within the original. */
  lemma FitsStepAt(tiers: seq<Tier>, reqs: seq<LineRequest>, j: nat)
    requires reqs != [] && WellFormed(reqs[0]) && TierAt(tiers, reqs[0].ticketId.value).Some?
    requires j < |tiers|
    ensures var next := Shift(tiers, reqs[0].ticketId.value, -reqs[0].quantity.value);
      j < |next| &&
      (Requested(next, reqs[1..], j) <= next[j].quantity) == (Requested(tiers, reqs, j) <= tiers[j].quantity)
  {
    var id := reqs[0].ticketId.value;
    var q := reqs[0].quantity.value;
    var next := Shift(tiers, id, -q);
    var own := if TierAt(tiers, id) == Some(j) then q else 0.0;
    ShiftAt(tiers, id, -q);
    RequestedSameIds(next, tiers, reqs[1..], j);
    assert Requested(tiers, reqs, j) == own + Requested(tiers, reqs[1..], j);
    assert next[j].quantity == tiers[j].quantity - own;
  }

  /** Taking the first request off its tier leaves the rest fitting exactly
      when all of them fit the original tiers. */
  lemma FitsStep(tiers: seq<Tier>, reqs: seq<LineRequest>)
    requires reqs != [] && WellFormed(reqs[0]) && TierAt(tiers, reqs[0].ticketId.value).Some?
    ensures Fits(Shift(tiers, reqs[0].ticketId.value, -reqs[0].quantity.value), reqs[1..]) == Fits(tiers, reqs)
  {
    forall j | 0 <= j < |tiers|
      ensures var next := Shift(tiers, reqs[0].ticketId.value, -reqs[0].quantity.value);
        (Requested(next, reqs[1..], j) <= next[j].quantity) == (Requested(tiers, reqs, j) <= tiers[j].quantity)
    {
      FitsStepAt(tiers, reqs, j);
    }
  }

  /** A first line that is malformed or names no tier of the event stops the
      reservation, and not all lines are known then. */
  lemma UnknownFirstRefused(tiers: seq<Tier>, reqs: seq<LineRequest>)
    requires reqs != [] && !(WellFormed(reqs[0]) && TierAt(tiers, reqs[0].ticketId.value).Some?)
    ensures Reserve(tiers, reqs).Failure? && !AllKnown(tiers, reqs)
  {
    assert CheckLine(tiers, reqs[0]).Failure?;
  }

  /** Past a known first line, all lines are known exactly when the rest are. */
  lemma AllKnownStep(tiers: seq<Tier>, reqs: seq<LineRequest>)
    requires reqs != [] && WellFormed(reqs[0]) && TierAt(tiers, reqs[0].ticketId.value).Some?
    ensures AllKnown(tiers, reqs) == AllKnown(tiers, reqs[1..])
  {
    assert forall k :: 0 <= k < |reqs[1..]| ==> reqs[1..][k] == reqs[k + 1];
  }

  /** A first line asking more than its tier holds, among known lines, is
      refused, and the requests do not fit either. */
  lemma ShortFirstRefused(tiers: seq<Tier>, reqs: seq<LineRequest>)
    requires reqs != [] && WellFormed(reqs[0]) && TierAt(tiers, reqs[0].ticketId.value).Some?
    requires tiers[TierAt(tiers, reqs[0].ticketId.value).value].quantity < reqs[0].quantity.value
    ensures Reserve(tiers, reqs).Failure?
    ensures AllKnown(tiers, reqs[1..]) ==> !Fits(tiers, reqs)
  {
    assert CheckLine(tiers, reqs[0]).Failure?;
    var k0 := TierAt(tiers, reqs[0].ticketId.value).value;
    if AllKnown(tiers, reqs[1..]) {
      RequestedNonNegative(tiers, reqs[1..], k0);
      assert Requested(tiers, reqs, k0) == reqs[0].quantity.value + Requested(tiers, reqs[1..], k0);
    }
  }

  /** Taking a count a tier holds off it keeps the ids and the stock. */
  lemma DebitKeepsStock(tiers: seq<Tier>, id: Id, q: real)
    requires InStock(tiers) && TierAt(tiers, id).Some? && tiers[TierAt(tiers, id).value].quantity >= q
    ensures InStock(Shift(tiers, id, -q)) && SameIds(Shift(tiers, id, -q), tiers)
  {
    ShiftAt(tiers, id, -q);
  }

  /** A first line its tier can serve is taken off that tier, and the
      reservation succeeds exactly when the rest succeeds on what is left. */
  lemma FirstServed(tiers: seq<Tier>, reqs: seq<LineRequest>)
    requires reqs != [] && WellFormed(reqs[0]) && TierAt(tiers, reqs[0].ticketId.value).Some?
    requires tiers[TierAt(tiers, reqs[0].ticketId.value).value].quantity >= reqs[0].quantity.value
    ensures Reserve(tiers, reqs).Success? <==>
      Reserve(Shift(tiers, reqs[0].ticketId.value, -reqs[0].quantity.value), reqs[1..]).Success?
  {
    assert CheckLine(tiers, reqs[0]) == Success(LineOf(reqs[0]));
  }

  /** On in-stock tiers, all requests can be met at once exactly when every line
      is well formed, names a tier of the event, and no tier is asked for more in
      total than it has left: checking a repeated tier against the already
      reduced count is the same as checking the sum. */
  lemma {:induction false} ReserveSucceedsIff(tiers: seq<Tier>, reqs: seq<LineRequest>)
    requires InStock(tiers)
    ensures Reserve(tiers, reqs).Success? <==> AllKnown(tiers, reqs) && Fits(tiers, reqs)
    decreases |reqs|, 1
  {
    if reqs != [] {
      if !(WellFormed(reqs[0]) && TierAt(tiers, reqs[0].ticketId.value).Some?) {
        UnknownFirstRefused(tiers, reqs);
      } else if tiers[TierAt(tiers, reqs[0].ticketId.value).value].quantity < reqs[0].quantity.value {
        AllKnownStep(tiers, reqs);
        ShortFirstRefused(tiers, reqs);
      } else {
        ServedSucceedsIff(tiers, reqs);
      }
    }
  }

  /** The case of ReserveSucceedsIff where the first line is served. */
  lemma {:induction false} ServedSucceedsIff(tiers: seq<Tier>, reqs: seq<LineRequest>)
    requires InStock(tiers)
    requires reqs != [] && WellFormed(reqs[0]) && TierAt(tiers, reqs[0].ticketId.value).Some?
    requires tiers[TierAt(tiers, reqs[0].ticketId.value).value].quantity >= reqs[0].quantity.value
    ensures Reserve(tiers, reqs).Success? <==> AllKnown(tiers, reqs) && Fits(tiers, reqs)
    decreases |reqs|, 0
  {
    var next := Shift(tiers, reqs[0].ticketId.value, -reqs[0].quantity.value);
    AllKnownStep(tiers, reqs);
    DebitKeepsStock(tiers, reqs[0].ticketId.value, reqs[0].quantity.value);
    FirstServed(tiers, reqs);
    ReserveSucceedsIff(next, reqs[1..]);
    AllKnownSameIds(next, tiers, reqs[1..]);
    FitsStep(tiers, reqs);
  }

  /** A successful reservation leaves every tier that had stock with stock: no
      remaining count goes below zero. */
  lemma {:induction false} ReserveKeepsInStock(tiers: seq<Tier>, reqs: seq<LineRequest>)
    requires InStock(tiers) && Reserve(tiers, reqs).Success?
    ensures InStock(Reserve(tiers, reqs).value.tiers)
    decreases |reqs|
  {
    if reqs != [] {
      var line := CheckLine(tiers, reqs[0]).value;
      ReserveKeepsInStock(Shift(tiers, line.ticketId, -line.quantity), reqs[1..]);
    }
  }

  /** `tickets.reduce((sum, t) => sum + t.quantity * t.amount, 0)` */
  function Total(lines: seq<OrderLine>): real
    decreases |lines|
  {
    if lines == [] then 0.0 else lines[0].quantity * lines[0].amount + Total(lines[1..])
  }

  /** Lines with positive counts and non-negative amounts total at least 0, so the
      schema's `min: 0` on totalAmount never rejects a new order. */
  lemma {:induction false} TotalNonNegative(lines: seq<OrderLine>)
    requires forall k :: 0 <= k < |lines| ==> lines[k].quantity >= 0.0 && lines[k].amount >= 0.0
    ensures Total(lines) >= 0.0
    decreases |lines|
  {
    if lines != [] {
      assert lines[0].quantity * lines[0].amount >= 0.0;
      TotalNonNegative(lines[1..]);
    }
  }

  /** The guard chain of createOrderSummary up to and including the reservation
      loop: what the handler answers, and on success which event it saves with
      which booking. */
  function PlaceOrder(events: seq<Event>, actor: Actor, eventId: Option<Id>, tickets: Option<seq<LineRequest>>)
    : (r: Result<(nat, Booking), OrderError>)
    ensures r.Success? ==> r.value.0 < |events|
  {
    if eventId.None? || tickets.None? || |tickets.value| == 0 then Failure(EventAndTicketsRequired)
    else if actor.companyId.None? then Failure(CompanyIdMissing)
    else match EventAt(events, eventId.value)
      case None => Failure(EventNotFound)
      case Some(i) => match Reserve(events[i].tiers, tickets.value)
        case Failure(e) => Failure(e)
        case Success(b) => Success((i, b))
  }

  /** Any request the handler accepts, on an event whose tiers are in stock,
      has a caller company, names an existing event, stores each request as a
      line with a positive count, books at most what each tier has left, and
      totals at least 0. */
  lemma PlaceOrderAccepts(events: seq<Event>, actor: Actor, eventId: Option<Id>, tickets: Option<seq<LineRequest>>)
    requires forall i :: 0 <= i < |events| ==> InStock(events[i].tiers)
    requires PlaceOrder(events, actor, eventId, tickets).Success?
    ensures var (i, b) := PlaceOrder(events, actor, eventId, tickets).value;
      && actor.companyId.Some? && eventId.Some? && tickets.Some? && |tickets.value| > 0
      && events[i].id == eventId.value
      && |b.lines| == |tickets.value|
      && (forall k :: 0 <= k < |b.lines| ==> b.lines[k].quantity > 0.0)
      && Fits(events[i].tiers, tickets.value)
      && Total(b.lines) >= 0.0
  {
    var (i, b) := PlaceOrder(events, actor, eventId, tickets).value;
    ReserveSucceedsIff(events[i].tiers, tickets.value);
    ReserveLines(events[i].tiers, tickets.value);
    TotalNonNegative(b.lines);
  }

  /** Each tier's remaining count drops by exactly the count the order asked of
      it; nothing else about any tier changes. */
  lemma ReserveDebitsEachTier(tiers: seq<Tier>, reqs: seq<LineRequest>)
    requires Reserve(tiers, reqs).Success?
    ensures var b := Reserve(tiers, reqs).value;
      && SameIds(b.tiers, tiers)
      && forall j :: 0 <= j < |tiers| ==>
           b.tiers[j] == tiers[j].(quantity := tiers[j].quantity - Requested(tiers, reqs, j))
  {
    var b := Reserve(tiers, reqs).value;
    ReserveLines(tiers, reqs);
    ReserveDebits(tiers, reqs);
    ApplyMovesAt(tiers, Debits(b.lines));
    forall j | 0 <= j < |tiers| ensures Net(tiers, Debits(b.lines), j) == -Requested(tiers, reqs, j) {
      DebitsNet(tiers, reqs, b.lines, j);
    }
  }

  lemma {:induction false} DebitsNet(tiers: seq<Tier>, reqs: seq<LineRequest>, lines: seq<OrderLine>, j: nat)
    requires AllWellFormed(reqs) && lines == LinesOf(reqs)
    ensures Net(tiers, Debits(lines), j) == -Requested(tiers, reqs, j)
    decreases |reqs|
  {
    if reqs != [] {
      assert Debits(lines)[1..] == Debits(lines[1..]);
      assert lines[1..] == LinesOf(reqs[1..]);
      DebitsNet(tiers, reqs[1..], lines[1..], j);
    }
  }

  /** The order schema's `required` on each line's `ticketName`, which refuses
      the empty string: a line list without it cannot be saved. */
  predicate Storable(lines: seq<OrderLine>) {
    forall k :: 0 <= k < |lines| ==> lines[k].ticketName != ""
  }

  /** The line checks test a name for presence only: a successful reservation
      yields lines the order schema accepts exactly when no request names its
      tier with the empty string. */
  lemma ReserveStorableIff(tiers: seq<Tier>, reqs: seq<LineRequest>)
    requires Reserve(tiers, reqs).Success?
    ensures Storable(Reserve(tiers, reqs).value.lines) <==>
      forall k :: 0 <= k < |reqs| ==> reqs[k].ticketName != Some("")
  {
    ReserveLines(tiers, reqs);
  }

  /** Example: a line named "" passes every check of the loop and is reserved,
      but the order it yields cannot be saved. */
  lemma EmptyNameReservedExample()
    ensures var tiers := [Tier(1, "GA", "", 100.0, 5.0)];
      var reqs := [LineRequest(Some(1), Some(""), Number(3.0), Number(100.0))];
      && Reserve(tiers, reqs).Success?
      && Reserve(tiers, reqs).value.tiers == [Tier(1, "GA", "", 100.0, 2.0)]
      && !Storable(Reserve(tiers, reqs).value.lines)
  {
    var tiers := [Tier(1, "GA", "", 100.0, 5.0)];
    var reqs := [LineRequest(Some(1), Some(""), Number(3.0), Number(100.0))];
    assert Shift(tiers, 1, -3.0) == [Tier(1, "GA", "", 100.0, 2.0)];
    assert reqs[1..] == [];
    ReserveStorableIff(tiers, reqs);
  }

  /** Creates an order. A failing guard or line saves nothing. Past the
      reservation the event is saved with its tiers debited; a Pending order
      priced from the client's amounts is then appended, unless a line's name is
      empty, in which case the schema refuses the order (500) and the debits stay
      saved. */
  method CreateOrderSummary(db: Database, actor: Actor, eventId: Option<Id>, tickets: Option<seq<LineRequest>>, now: Time)
    returns (r: Result<Order, OrderError>)
    modifies db`events, db`orders, db`nextId
    ensures match PlaceOrder(old(db.events), actor, eventId, tickets)
      case Failure(e) =>
        r == Failure(e) && db.events == old(db.events) && db.orders == old(db.orders)
      case Success((i, b)) =>
        && db.events == old(db.events)[i := old(db.events)[i].(tiers := b.tiers)]
        && if !Storable(b.lines) then r == Failure(OrderRejectedOnSave) && db.orders == old(db.orders)
           else
             && r == Success(Order(old(db.nextId), eventId.value, b.lines, Total(b.lines), actor.id,
                                   actor.companyId.value, Pending, now))
             && db.orders == old(db.orders) + [r.value]
  {
    if eventId.None? || tickets.None? || |tickets.value| == 0 {
      return Failure(EventAndTicketsRequired);
    }
    if actor.companyId.None? {
      return Failure(CompanyIdMissing);
    }
    var found := EventAt(db.events, eventId.value);
    if found.None? {
      return Failure(EventNotFound);
    }
    var i := found.value;
    var event := db.events[i];
    var reserved := ReserveTickets(event.tiers, tickets.value);
    if reserved.Failure? {
      return Failure(reserved.error);
    }
    var b := reserved.value;
    db.events := db.events[i := event.(tiers := b.tiers)];
    if !Storable(b.lines) {
      return Failure(OrderRejectedOnSave);
    }
    var id := db.FreshId();
    var order := Order(id, eventId.value, b.lines, Total(b.lines), actor.id, actor.companyId.value, Pending, now);
    db.orders := db.orders + [order];
    r := Success(order);
  }

  // ---------------------------------------------------------------------------
  // updateOrder: signed deltas against the order snapshot, current prices
  // ---------------------------------------------------------------------------

  /** The index of the first snapshot line for this tier (`order.tickets.find`). */
  function LineAt(lines: seq<OrderLine>, id: Id): (r: Option<nat>)
    ensures r.Some? ==> r.value < |lines| && lines[r.value].ticketId == id
  {
    if lines == [] then None
    else if lines[0].ticketId == id then Some(0)
    else match LineAt(lines[1..], id)
      case None => None
      case Some(k) => Some(k + 1)
  }

  /** How far a new count is above the count the snapshot holds for that tier. */
  function EditDelta(snapshot: seq<OrderLine>, e: TicketEdit): real
    requires LineAt(snapshot, e.ticketId).Some?
  {
    e.quantity - snapshot[LineAt(snapshot, e.ticketId).value].quantity
  }

  /** The line an edit is stored as: the edit's count at the tier's current name
      and price. */
  function Repriced(tiers: seq<Tier>, e: TicketEdit): OrderLine
    requires TierAt(tiers, e.ticketId).Some?
  {
    var t := tiers[TierAt(tiers, e.ticketId).value];
    OrderLine(e.ticketId, t.name, e.quantity, t.price)
  }

  /** The `tickets.map(...)` of updateOrder: each edit needs its tier both in the
      snapshot and in the event (otherwise it throws), an increase needs that many
      tickets still left, the tier's count moves by minus the delta, and the line
      is repriced at the tier's current name and price. A success has one line
      per edit and as many tiers as before. */
  function Rebook(tiers: seq<Tier>, snapshot: seq<OrderLine>, edits: seq<TicketEdit>): (r: Result<Booking, OrderError>)
    ensures r.Success? ==> |r.value.tiers| == |tiers| && |r.value.lines| == |edits|
    decreases |edits|
  {
    if edits == [] then Success(Booking(tiers, []))
    else match EditStep(tiers, snapshot, edits[0])
      case Failure(err) => Failure(err)
      case Success((line, diff)) => Prefixed([line], Rebook(Shift(tiers, edits[0].ticketId, -diff), snapshot, edits[1..]))
  }

  /** One callback of the map: the edit's tier must be in the snapshot and in
      the event, and an increase needs that many tickets left; the result is the
      repriced line and the delta. */
  function EditStep(tiers: seq<Tier>, snapshot: seq<OrderLine>, e: TicketEdit): Result<(OrderLine, real), OrderError> {
    if LineAt(snapshot, e.ticketId).None? || TierAt(tiers, e.ticketId).None? then Failure(InvalidTicketId)
    else
      var diff := EditDelta(snapshot, e);
      if diff > 0.0 && tiers[TierAt(tiers, e.ticketId).value].quantity < diff then Failure(NotEnoughForEdit)
      else Success((Repriced(tiers, e), diff))
  }

  /** An edit is served exactly when its tier is in the snapshot and in the
      event and an increase has that many tickets left; it yields the
      repriced line and the delta. */
  lemma EditStepExactly(tiers: seq<Tier>, snapshot: seq<OrderLine>, e: TicketEdit)
    ensures EditStep(tiers, snapshot, e).Success? <==>
      && LineAt(snapshot, e.ticketId).Some? && TierAt(tiers, e.ticketId).Some?
      && !(EditDelta(snapshot, e) > 0.0 && tiers[TierAt(tiers, e.ticketId).value].quantity < EditDelta(snapshot, e))
    ensures EditStep(tiers, snapshot, e).Success? ==>
      EditStep(tiers, snapshot, e).value == (Repriced(tiers, e), EditDelta(snapshot, e))
  {
  }

  /** Rebooking from edit `i` on: that edit's step fails it, or its line goes
      in front of the later edits rebooked on the shifted tiers. */
  lemma RebookUnfolds(tiers: seq<Tier>, snapshot: seq<OrderLine>, edits: seq<TicketEdit>, i: nat)
    requires i < |edits|
    ensures EditStep(tiers, snapshot, edits[i]).Failure? ==>
      Rebook(tiers, snapshot, edits[i..]) == Failure(EditStep(tiers, snapshot, edits[i]).error)
    ensures EditStep(tiers, snapshot, edits[i]).Success? ==>
      Rebook(tiers, snapshot, edits[i..]) ==
        Prefixed([EditStep(tiers, snapshot, edits[i]).value.0],
                 Rebook(Shift(tiers, edits[i].ticketId, -EditStep(tiers, snapshot, edits[i]).value.1), snapshot, edits[i + 1..]))
  {
    assert edits[i..][0] == edits[i] && edits[i..][1..] == edits[i + 1..];
  }

  /** One step of the rebooking loop at edit `i`: when that edit fails, so
      does the whole rebooking; otherwise its line joins the lines taken and
      the remaining edits are rebooked on the shifted tiers. */
  lemma RebookStep(whole: Result<Booking, OrderError>, lines: seq<OrderLine>, tiers: seq<Tier>, snapshot: seq<OrderLine>, edits: seq<TicketEdit>, i: nat)
    requires i < |edits| && whole == Prefixed(lines, Rebook(tiers, snapshot, edits[i..]))
    ensures EditStep(tiers, snapshot, edits[i]).Failure? ==> whole == Failure(EditStep(tiers, snapshot, edits[i]).error)
    ensures EditStep(tiers, snapshot, edits[i]).Success? ==>
      var step := EditStep(tiers, snapshot, edits[i]).value;
      whole == Prefixed(lines + [step.0], Rebook(Shift(tiers, edits[i].ticketId, -step.1), snapshot, edits[i + 1..]))
  {
    RebookUnfolds(tiers, snapshot, edits, i);
    var e := EditStep(tiers, snapshot, edits[i]);
    if e.Success? {
      PrefixedTwice(lines, [e.value.0], Rebook(Shift(tiers, edits[i].ticketId, -e.value.1), snapshot, edits[i + 1..]));
    }
  }

  /** The `map` callback run over the edits, on a working copy of the tiers. */
  method RebookTickets(tiers: seq<Tier>, snapshot: seq<OrderLine>, edits: seq<TicketEdit>)
    returns (r: Result<Booking, OrderError>)
    ensures r == Rebook(tiers, snapshot, edits)
  {
    var cur := tiers;
    var lines: seq<OrderLine> := [];
    var i := 0;
    assert edits[0..] == edits;
    PrefixedNothing(Rebook(tiers, snapshot, edits));
    while i < |edits|
      invariant 0 <= i <= |edits|
      invariant Rebook(tiers, snapshot, edits) == Prefixed(lines, Rebook(cur, snapshot, edits[i..]))
    {
      var step := EditStep(cur, snapshot, edits[i]);
      RebookStep(Rebook(tiers, snapshot, edits), lines, cur, snapshot, edits, i);
      if step.Failure? {
        return Failure(step.error);
      }
      lines := lines + [step.value.0];
      cur := Shift(cur, edits[i].ticketId, -step.value.1);
      i := i + 1;
    }
    assert edits[i..] == [];
    assert lines + [] == lines;
    r := Success(Booking(cur, lines));
  }

  /** The inventory moves of a set of edits: minus each edit's delta. */
  function Adjustments(snapshot: seq<OrderLine>, edits: seq<TicketEdit>): (r: seq<Move>)
    requires forall k :: 0 <= k < |edits| ==> LineAt(snapshot, edits[k].ticketId).Some?
    ensures |r| == |edits|
    ensures forall k :: 0 <= k < |r| ==> r[k] == Move(edits[k].ticketId, -EditDelta(snapshot, edits[k]))
  {
    if edits == [] then []
    else [Move(edits[0].ticketId, -EditDelta(snapshot, edits[0]))] + Adjustments(snapshot, edits[1..])
  }

  /** A successful rebooking served its first edit: its line is in front and
      the rest was rebooked on the shifted tiers. */
  lemma RebookCons(tiers: seq<Tier>, snapshot: seq<OrderLine>, edits: seq<TicketEdit>)
    requires edits != [] && Rebook(tiers, snapshot, edits).Success?
    ensures LineAt(snapshot, edits[0].ticketId).Some? && TierAt(tiers, edits[0].ticketId).Some?
    ensures var next := Shift(tiers, edits[0].ticketId, -EditDelta(snapshot, edits[0]));
      && Rebook(next, snapshot, edits[1..]).Success?
      && Rebook(tiers, snapshot, edits).value.tiers == Rebook(next, snapshot, edits[1..]).value.tiers
      && Rebook(tiers, snapshot, edits).value.lines[0] == Repriced(tiers, edits[0])
  {
    EditStepExactly(tiers, snapshot, edits[0]);
  }

  /** Line `k` of a successful rebooking is line `k - 1` of the rest. */
  lemma RebookLater(tiers: seq<Tier>, snapshot: seq<OrderLine>, edits: seq<TicketEdit>, k: nat)
    requires 0 < k < |edits| && Rebook(tiers, snapshot, edits).Success?
    ensures LineAt(snapshot, edits[0].ticketId).Some?
    ensures var next := Shift(tiers, edits[0].ticketId, -EditDelta(snapshot, edits[0]));
      && Rebook(next, snapshot, edits[1..]).Success?
      && Rebook(tiers, snapshot, edits).value.lines[k] == Rebook(next, snapshot, edits[1..]).value.lines[k - 1]
  {
    EditStepExactly(tiers, snapshot, edits[0]);
  }

  /** The line of edit `k` names a tier of the snapshot and of the event, and
      is repriced at that tier's current name and price. */
  lemma {:induction false} RebookLineAt(tiers: seq<Tier>, snapshot: seq<OrderLine>, edits: seq<TicketEdit>, k: nat)
    requires Rebook(tiers, snapshot, edits).Success? && k < |edits|
    ensures LineAt(snapshot, edits[k].ticketId).Some? && TierAt(tiers, edits[k].ticketId).Some?
    ensures Rebook(tiers, snapshot, edits).value.lines[k] == Repriced(tiers, edits[k])
    decreases k
  {
    if k == 0 {
      RebookCons(tiers, snapshot, edits);
    } else {
      RebookLater(tiers, snapshot, edits, k);
      var delta := -EditDelta(snapshot, edits[0]);
      var next := Shift(tiers, edits[0].ticketId, delta);
      RebookLineAt(next, snapshot, edits[1..], k - 1);
      assert edits[1..][k - 1] == edits[k];
      RepricedAfterShift(tiers, edits[0].ticketId, delta, edits[k]);
    }
  }

  /** Shifting a count finds the same tiers and keeps their names and prices. */
  lemma RepricedAfterShift(tiers: seq<Tier>, id: Id, delta: real, e: TicketEdit)
    requires TierAt(Shift(tiers, id, delta), e.ticketId).Some?
    ensures TierAt(tiers, e.ticketId) == TierAt(Shift(tiers, id, delta), e.ticketId)
    ensures Repriced(Shift(tiers, id, delta), e) == Repriced(tiers, e)
  {
    ShiftAt(tiers, id, delta);
    TierAtSameIds(Shift(tiers, id, delta), tiers, e.ticketId);
  }

  /** Every line of a successful rebooking is its edit repriced at the current
      tier: the tier is in both the snapshot and the event. */
  lemma RebookLines(tiers: seq<Tier>, snapshot: seq<OrderLine>, edits: seq<TicketEdit>)
    requires Rebook(tiers, snapshot, edits).Success?
    ensures forall k :: 0 <= k < |edits| ==>
      && LineAt(snapshot, edits[k].ticketId).Some?
      && TierAt(tiers, edits[k].ticketId).Some?
      && Rebook(tiers, snapshot, edits).value.lines[k] == Repriced(tiers, edits[k])
  {
    forall k | 0 <= k < |edits|
      ensures && LineAt(snapshot, edits[k].ticketId).Some?
              && TierAt(tiers, edits[k].ticketId).Some?
              && Rebook(tiers, snapshot, edits).value.lines[k] == Repriced(tiers, edits[k])
    {
      RebookLineAt(tiers, snapshot, edits, k);
    }
  }

  /** The moves of a list of edits: the first edit's move, then the rest's. */
  lemma AdjustmentsCons(snapshot: seq<OrderLine>, edits: seq<TicketEdit>)
    requires edits != [] && forall k :: 0 <= k < |edits| ==> LineAt(snapshot, edits[k].ticketId).Some?
    ensures forall k :: 0 <= k < |edits[1..]| ==> LineAt(snapshot, edits[1..][k].ticketId).Some?
    ensures Adjustments(snapshot, edits) ==
      [Move(edits[0].ticketId, -EditDelta(snapshot, edits[0]))] + Adjustments(snapshot, edits[1..])
  {
    assert forall k :: 0 <= k < |edits[1..]| ==> edits[1..][k] == edits[k + 1];
  }

  /** Applying the moves of a list of edits applies the first edit's move,
      then the rest's. */
  lemma ApplyAdjustmentsCons(tiers: seq<Tier>, snapshot: seq<OrderLine>, edits: seq<TicketEdit>)
    requires edits != [] && forall k :: 0 <= k < |edits| ==> LineAt(snapshot, edits[k].ticketId).Some?
    ensures forall k :: 0 <= k < |edits[1..]| ==> LineAt(snapshot, edits[1..][k].ticketId).Some?
    ensures ApplyMoves(tiers, Adjustments(snapshot, edits)) ==
      ApplyMoves(Shift(tiers, edits[0].ticketId, -EditDelta(snapshot, edits[0])), Adjustments(snapshot, edits[1..]))
  {
    AdjustmentsCons(snapshot, edits);
    ApplyMovesFront(tiers, edits[0].ticketId, -EditDelta(snapshot, edits[0]), Adjustments(snapshot, edits[1..]));
  }

  /** The tiers of a successful rebooking are the original tiers moved by minus
      each edit's delta against the snapshot, in edit order. */
  lemma {:induction false} RebookAdjusts(tiers: seq<Tier>, snapshot: seq<OrderLine>, edits: seq<TicketEdit>)
    requires Rebook(tiers, snapshot, edits).Success?
    ensures forall k :: 0 <= k < |edits| ==> LineAt(snapshot, edits[k].ticketId).Some?
    ensures Rebook(tiers, snapshot, edits).value.tiers == ApplyMoves(tiers, Adjustments(snapshot, edits))
    decreases |edits|
  {
    if edits != [] {
      var next := Shift(tiers, edits[0].ticketId, -EditDelta(snapshot, edits[0]));
      RebookCons(tiers, snapshot, edits);
      RebookAdjusts(next, snapshot, edits[1..]);
      forall k | 0 <= k < |edits| ensures LineAt(snapshot, edits[k].ticketId).Some? {
        if k > 0 { assert edits[k] == edits[1..][k - 1]; }
      }
      ApplyAdjustmentsCons(tiers, snapshot, edits);
    }
  }

  /** Lines left out of the edit request are dropped from the order without their
      inventory coming back: a tier no edit names keeps its count. */
  lemma RebookLeavesUnnamedTiers(tiers: seq<Tier>, snapshot: seq<OrderLine>, edits: seq<TicketEdit>, j: nat)
    requires Rebook(tiers, snapshot, edits).Success?
    requires j < |tiers|
    requires forall k :: 0 <= k < |edits| ==> TierAt(tiers, edits[k].ticketId) != Some(j)
    ensures Rebook(tiers, snapshot, edits).value.tiers[j] == tiers[j]
  {
    RebookAdjusts(tiers, snapshot, edits);
    var moves := Adjustments(snapshot, edits);
    ApplyMovesAt(tiers, moves);
    NetUntouched(tiers, moves, j);
  }

  lemma {:induction false} NetUntouched(tiers: seq<Tier>, moves: seq<Move>, j: nat)
    requires forall k :: 0 <= k < |moves| ==> TierAt(tiers, moves[k].ticketId) != Some(j)
    ensures Net(tiers, moves, j) == 0.0
    decreases |moves|
  {
    if moves != [] { NetUntouched(tiers, moves[1..], j); }
  }

  /** A successful rebooking of in-stock tiers leaves them in stock: an increase
      is only taken when that many tickets are left. */
  lemma {:induction false} RebookKeepsInStock(tiers: seq<Tier>, snapshot: seq<OrderLine>, edits: seq<TicketEdit>)
    requires InStock(tiers) && Rebook(tiers, snapshot, edits).Success?
    ensures InStock(Rebook(tiers, snapshot, edits).value.tiers)
    decreases |edits|
  {
    if edits != [] {
      RebookKeepsInStock(Shift(tiers, edits[0].ticketId, -EditDelta(snapshot, edits[0])), snapshot, edits[1..]);
    }
  }

  /** Two edit lines for the same tier are each measured against the same
      snapshot line: a line of 2 edited to twice 3 moves the tier by 2 only,
      while the order ends up holding 6. */
  lemma RepeatedEditMeasuredTwiceAgainstSnapshot()
    ensures var tiers := [Tier(7, "GA", "", 100.0, 10.0)];
      var snapshot := [OrderLine(7, "GA", 2.0, 100.0)];
      var b := Rebook(tiers, snapshot, [TicketEdit(7, 3.0), TicketEdit(7, 3.0)]).value;
      && Rebook(tiers, snapshot, [TicketEdit(7, 3.0), TicketEdit(7, 3.0)]).Success?
      && b.tiers[0].quantity == 8.0
      && b.lines[0].quantity + b.lines[1].quantity == 6.0
  {
    var tiers := [Tier(7, "GA", "", 100.0, 10.0)];
    var snapshot := [OrderLine(7, "GA", 2.0, 100.0)];
    var t1 := Shift(tiers, 7, -1.0);
    assert t1 == [Tier(7, "GA", "", 100.0, 9.0)];
    assert Shift(t1, 7, -1.0) == [Tier(7, "GA", "", 100.0, 8.0)];
  }

  /** The edit handler's outcome up to the rebooking: which order and event it
      works on and the new lines and tiers. */
  function PlanEdit(orders: seq<Order>, events: seq<Event>, actor: Actor, orderId: Id, tickets: Option<seq<TicketEdit>>)
    : (r: Result<(nat, nat, Booking), OrderError>)
    ensures r.Success? ==> r.value.0 < |orders| && r.value.1 < |events|
  {
    if tickets.None? || |tickets.value| == 0 then Failure(TicketsRequired)
    else match OrderAt(orders, orderId)
      case None => Failure(OrderNotFound)
      case Some(o) =>
        if actor.id != orders[o].userId && actor.role != Admin then Failure(NotAuthorized)
        else match EventAt(events, orders[o].eventId)
          case None => Failure(AssociatedEventNotFound)
          case Some(i) => match Rebook(events[i].tiers, orders[o].lines, tickets.value)
            case Failure(e) => Failure(e)
            case Success(b) => Success((o, i, b))
  }

  /** Only the buyer or an admin gets past the guards of an edit. */
  lemma EditNeedsBuyerOrAdmin(orders: seq<Order>, events: seq<Event>, actor: Actor, orderId: Id, tickets: Option<seq<TicketEdit>>)
    requires PlanEdit(orders, events, actor, orderId, tickets).Success?
    ensures var o := PlanEdit(orders, events, actor, orderId, tickets).value.0;
      orders[o].id == orderId && (actor.id == orders[o].userId || actor.role == Admin)
  {
  }

  /** An accepted edit reprices every line at the current price of its tier, and
      the new total is the sum over those repriced lines. */
  lemma EditRepricesAtCurrentPrice(orders: seq<Order>, events: seq<Event>, actor: Actor, orderId: Id, tickets: Option<seq<TicketEdit>>)
    requires PlanEdit(orders, events, actor, orderId, tickets).Success?
    ensures var (o, i, b) := PlanEdit(orders, events, actor, orderId, tickets).value;
      var tiers := events[i].tiers;
      && |b.lines| == |tickets.value|
      && forall k :: 0 <= k < |b.lines| ==>
           && TierAt(tiers, b.lines[k].ticketId).Some?
           && b.lines[k].ticketId == tickets.value[k].ticketId
           && b.lines[k].amount == tiers[TierAt(tiers, b.lines[k].ticketId).value].price
           && b.lines[k].quantity == tickets.value[k].quantity
  {
    var (o, i, b) := PlanEdit(orders, events, actor, orderId, tickets).value;
    RebookLines(events[i].tiers, orders[o].lines, tickets.value);
  }

  /** A successful rebooking yields lines the order schema accepts exactly when
      every edited tier has a non-empty name in the event, since each line
      copies its tier's current name. */
  lemma RebookStorableIff(tiers: seq<Tier>, snapshot: seq<OrderLine>, edits: seq<TicketEdit>)
    requires Rebook(tiers, snapshot, edits).Success?
    ensures forall k :: 0 <= k < |edits| ==> TierAt(tiers, edits[k].ticketId).Some?
    ensures Storable(Rebook(tiers, snapshot, edits).value.lines) <==>
      forall k :: 0 <= k < |edits| ==> tiers[TierAt(tiers, edits[k].ticketId).value].name != ""
  {
    RebookLines(tiers, snapshot, edits);
  }

  /** Edits an order. A failing guard or a throwing edit saves nothing. Past the
      rebooking the event is saved first; the order is then saved with the new
      lines, the recomputed total and any supplied status, unless the schema
      rejects the status string, a negative total or a line whose copied tier
      name is empty, in which case the event's new counts stay saved and the
      order does not change. */
  method UpdateOrder(db: Database, actor: Actor, orderId: Id, tickets: Option<seq<TicketEdit>>, paymentStatus: Option<string>)
    returns (r: Result<Order, OrderError>)
    modifies db`events, db`orders
    ensures match PlanEdit(old(db.orders), old(db.events), actor, orderId, tickets)
      case Failure(e) =>
        r == Failure(e) && db.events == old(db.events) && db.orders == old(db.orders)
      case Success((o, i, b)) =>
        var order := old(db.orders)[o];
        var status := if Truthy(paymentStatus) then ParsePaymentStatus(paymentStatus.value) else Some(order.paymentStatus);
        && db.events == old(db.events)[i := old(db.events)[i].(tiers := b.tiers)]
        && (if status.None? || Total(b.lines) < 0.0 || !Storable(b.lines) then
              r == Failure(OrderRejectedOnSave) && db.orders == old(db.orders)
            else
              && r == Success(order.(lines := b.lines, totalAmount := Total(b.lines), paymentStatus := status.value))
              && db.orders == old(db.orders)[o := r.value])
  {
    if tickets.None? || |tickets.value| == 0 {
      return Failure(TicketsRequired);
    }
    var found := OrderAt(db.orders, orderId);
    if found.None? {
      return Failure(OrderNotFound);
    }
    var o := found.value;
    var order := db.orders[o];
    if actor.id != order.userId && actor.role != Admin {
      return Failure(NotAuthorized);
    }
    var ev := EventAt(db.events, order.eventId);
    if ev.None? {
      return Failure(AssociatedEventNotFound);
    }
    var i := ev.value;
    var rebooked := RebookTickets(db.events[i].tiers, order.lines, tickets.value);
    if rebooked.Failure? {
      return Failure(rebooked.error);
    }
    var b := rebooked.value;
    var total := Total(b.lines);
    db.events := db.events[i := db.events[i].(tiers := b.tiers)];
    var status := order.paymentStatus;
    if Truthy(paymentStatus) {
      var parsed := ParsePaymentStatus(paymentStatus.value);
      if parsed.None? {
        return Failure(OrderRejectedOnSave);
      }
      status := parsed.value;
    }
    if total < 0.0 || !Storable(b.lines) {
      return Failure(OrderRejectedOnSave);
    }
    var updated := order.(lines := b.lines, totalAmount := total, paymentStatus := status);
    db.orders := db.orders[o := updated];
    r := Success(updated);
  }

  // ---------------------------------------------------------------------------
  // deleteOrder: give every line back to its tier, then remove the order
  // ---------------------------------------------------------------------------

  /** One step of the restoring loop: line `i` is given back first, then the
      lines after it. */
  lemma RestoreStep(whole: seq<Tier>, tiers: seq<Tier>, lines: seq<OrderLine>, i: nat)
    requires i < |lines| && whole == ApplyMoves(tiers, Credits(lines[i..]))
    ensures whole == ApplyMoves(Shift(tiers, lines[i].ticketId, lines[i].quantity), Credits(lines[i + 1..]))
  {
    assert lines[i..] == [lines[i]] + lines[i + 1..];
    ApplyMovesFront(tiers, lines[i].ticketId, lines[i].quantity, Credits(lines[i + 1..]));
  }

  /** The restoring loop of deleteOrder, on a working copy of the tiers: a line
      whose tier is gone is skipped. */
  method RestoreTickets(tiers: seq<Tier>, lines: seq<OrderLine>) returns (r: seq<Tier>)
    ensures r == ApplyMoves(tiers, Credits(lines))
  {
    r := tiers;
    var i := 0;
    assert lines[0..] == lines;
    while i < |lines|
      invariant 0 <= i <= |lines|
      invariant ApplyMoves(tiers, Credits(lines)) == ApplyMoves(r, Credits(lines[i..]))
    {
      ghost var before := r;
      RestoreStep(ApplyMoves(tiers, Credits(lines)), r, lines, i);
      var k := TierAt(r, lines[i].ticketId);
      if k.Some? {
        r := r[k.value := r[k.value].(quantity := r[k.value].quantity + lines[i].quantity)];
      }
      assert r == Shift(before, lines[i].ticketId, lines[i].quantity);
      i := i + 1;
    }
  }

  /** Each tier gets back exactly the count of the lines that name it. */
  lemma RestoreCreditsEachTier(tiers: seq<Tier>, lines: seq<OrderLine>)
    ensures SameIds(ApplyMoves(tiers, Credits(lines)), tiers)
    ensures forall j :: 0 <= j < |tiers| ==>
      ApplyMoves(tiers, Credits(lines))[j] == tiers[j].(quantity := tiers[j].quantity + Net(tiers, Credits(lines), j))
  {
    ApplyMovesAt(tiers, Credits(lines));
  }

  lemma {:induction false} CreditsNegateDebits(lines: seq<OrderLine>)
    ensures Credits(lines) == Negated(Debits(lines))
    decreases |lines|
  {
    if lines != [] {
      CreditsNegateDebits(lines[1..]);
      assert Negated(Debits(lines))[1..] == Negated(Debits(lines)[1..]);
      assert Debits(lines)[1..] == Debits(lines[1..]);
    }
  }

  /** Deleting an order right after creating it gives the event exactly the tiers
      it had before the order was placed. */
  lemma ReserveThenRestore(tiers: seq<Tier>, reqs: seq<LineRequest>)
    requires Reserve(tiers, reqs).Success?
    ensures var b := Reserve(tiers, reqs).value;
      ApplyMoves(b.tiers, Credits(b.lines)) == tiers
  {
    var b := Reserve(tiers, reqs).value;
    ReserveDebits(tiers, reqs);
    CreditsNegateDebits(b.lines);
    UndoMoves(tiers, Debits(b.lines));
  }

  /** Giving back lines with non-negative counts keeps in-stock tiers in stock. */
  lemma RestoreKeepsInStock(tiers: seq<Tier>, lines: seq<OrderLine>)
    requires InStock(tiers)
    requires forall k :: 0 <= k < |lines| ==> lines[k].quantity >= 0.0
    ensures InStock(ApplyMoves(tiers, Credits(lines)))
  {
    ApplyMovesAt(tiers, Credits(lines));
    forall j | 0 <= j < |tiers| ensures Net(tiers, Credits(lines), j) >= 0.0 {
      CreditsNonNegative(tiers, lines, j);
    }
  }

  lemma {:induction false} CreditsNonNegative(tiers: seq<Tier>, lines: seq<OrderLine>, j: nat)
    requires forall k :: 0 <= k < |lines| ==> lines[k].quantity >= 0.0
    ensures Net(tiers, Credits(lines), j) >= 0.0
    decreases |lines|
  {
    if lines != [] {
      assert Credits(lines)[1..] == Credits(lines[1..]);
      CreditsNonNegative(tiers, lines[1..], j);
    }
  }

  datatype DeleteError = DeleteOrderNotFound | NotOwnOrder
  {
    function Status(): nat {
      match this
      case DeleteOrderNotFound => 404
      case NotOwnOrder => 403
    }
  }

  /** Deletes an order of the caller, whatever its status: the event (if it still
      exists) gets every line's count back, then the order is removed. */
  method DeleteOrder(db: Database, actor: Actor, orderId: Id) returns (r: Result<(), DeleteError>)
    modifies db`events, db`orders
    ensures OrderAt(old(db.orders), orderId).None? ==>
      r == Failure(DeleteOrderNotFound) && db.events == old(db.events) && db.orders == old(db.orders)
    ensures OrderAt(old(db.orders), orderId).Some? ==>
      var o := OrderAt(old(db.orders), orderId).value;
      var order := old(db.orders)[o];
      if order.userId != actor.id then
        r == Failure(NotOwnOrder) && db.events == old(db.events) && db.orders == old(db.orders)
      else
        && r == Success(())
        && db.orders == RemoveAt(old(db.orders), o)
        && db.events == match EventAt(old(db.events), order.eventId)
             case None => old(db.events)
             case Some(i) => old(db.events)[i := old(db.events)[i].(tiers := ApplyMoves(old(db.events)[i].tiers, Credits(order.lines)))]
  {
    var found := OrderAt(db.orders, orderId);
    if found.None? {
      return Failure(DeleteOrderNotFound);
    }
    var o := found.value;
    var order := db.orders[o];
    if order.userId != actor.id {
      return Failure(NotOwnOrder);
    }
    var ev := EventAt(db.events, order.eventId);
    if ev.Some? {
      var i := ev.value;
      var restored := RestoreTickets(db.events[i].tiers, order.lines);
      db.events := db.events[i := db.events[i].(tiers := restored)];
    }
    db.orders := RemoveAt(db.orders, o);
    r := Success(());
  }

  /** The scenario of one "GA" tier of 5 at 100: an order of 3 leaves 2 and totals
      300, a second order of 3 is refused, and deleting the first gives 5 back. */
  lemma GeneralAdmissionScenario()
    ensures var tiers := [Tier(1, "GA", "", 100.0, 5.0)];
      var req := [LineRequest(Some(1), Some("GA"), Number(3.0), Number(100.0))];
      && Reserve(tiers, req).Success?
      && Reserve(tiers, req).value.tiers == [Tier(1, "GA", "", 100.0, 2.0)]
      && Total(Reserve(tiers, req).value.lines) == 300.0
      && Reserve(Reserve(tiers, req).value.tiers, req) == Failure(NotEnoughTickets)
      && ApplyMoves(Reserve(tiers, req).value.tiers, Credits(Reserve(tiers, req).value.lines)) == tiers
  {
    var tiers := [Tier(1, "GA", "", 100.0, 5.0)];
    var req := [LineRequest(Some(1), Some("GA"), Number(3.0), Number(100.0))];
    assert Shift(tiers, 1, -3.0) == [Tier(1, "GA", "", 100.0, 2.0)];
    ReserveThenRestore(tiers, req);
  }

  // ---------------------------------------------------------------------------
  // getEventWithAmount: the discount preview
  // ---------------------------------------------------------------------------

  datatype Quote = Quote(totalAmount: real, discount: real, finalAmount: real)

  datatype PreviewError = OrderIdRequired | PreviewOrderNotFound | NoTickets | PromoNotFound | PromoExpired
  {
    function Status(): nat {
      match this
      case PreviewOrderNotFound | PromoNotFound => 404
      case _ => 400
    }
  }

  /** The preview's answer: the order's total; with a truthy code, the first promo
      carrying that code in any company (active or not) unless it has expired,
      and its discount of that total, with no clamp at 0. Nothing is written. */
  function Preview(orders: seq<Order>, promos: seq<Promo>, orderId: Option<Id>, promoCode: Option<string>, now: Time)
    : Result<Quote, PreviewError>
  {
    if orderId.None? then Failure(OrderIdRequired)
    else match OrderAt(orders, orderId.value)
      case None => Failure(PreviewOrderNotFound)
      case Some(o) =>
        var lines := orders[o].lines;
        if |lines| == 0 then Failure(NoTickets)
        else
          var total := Total(lines);
          if !Truthy(promoCode) then Success(Quote(total, 0.0, total))
          else match FirstWhere(promos, (p: Promo) => p.code == promoCode.value)
            case None => Failure(PromoNotFound)
            case Some(k) =>
              var p := promos[k];
              if p.expiresAt.Some? && now > p.expiresAt.value then Failure(PromoExpired)
              else
                var d := Discount(p.discountType, p.discountAmount, total);
                Success(Quote(total, d, total - d))
  }

  /** The preview refuses a request without an order id and one naming no
      stored order. */
  lemma PreviewRefusals(orders: seq<Order>, promos: seq<Promo>, orderId: Option<Id>, promoCode: Option<string>, now: Time)
    ensures orderId.None? ==> Preview(orders, promos, orderId, promoCode, now) == Failure(OrderIdRequired)
    ensures orderId.Some? && (forall k :: 0 <= k < |orders| ==> orders[k].id != orderId.value) ==>
      Preview(orders, promos, orderId, promoCode, now) == Failure(PreviewOrderNotFound)
  {
    if orderId.Some? {
      FirstWhereFirst(orders, (o: Order) => o.id == orderId.value);
    }
  }

  /** For the first stored order with a given id: an order without lines is
      refused; without a truthy code the quote is the sum of quantity times
      amount over its lines, undiscounted; with a code that no promo carries,
      in any company, the preview fails with 404. */
  lemma PreviewOfOrder(orders: seq<Order>, promos: seq<Promo>, o: nat, promoCode: Option<string>, now: Time)
    requires o < |orders| && forall j :: 0 <= j < o ==> orders[j].id != orders[o].id
    ensures var pv := Preview(orders, promos, Some(orders[o].id), promoCode, now);
      var total := Total(orders[o].lines);
      && (orders[o].lines == [] ==> pv == Failure(NoTickets))
      && (orders[o].lines != [] && !Truthy(promoCode) ==> pv == Success(Quote(total, 0.0, total)))
      && (orders[o].lines != [] && Truthy(promoCode) && (forall k :: 0 <= k < |promos| ==> promos[k].code != promoCode.value) ==>
            pv == Failure(PromoNotFound))
  {
    FirstWhereFirst(orders, (x: Order) => x.id == orders[o].id);
    if Truthy(promoCode) {
      FirstWhereFirst(promos, (p: Promo) => p.code == promoCode.value);
    }
  }

  /** With a non-empty code, the preview uses the first promo carrying it, in
      any company and whether active or not: past its expiry the preview fails,
      and otherwise it quotes that promo's `Discount` of the line total and the
      total minus that discount, unclamped. */
  lemma PreviewQuotesFirstPromo(orders: seq<Order>, promos: seq<Promo>, o: nat, k: nat, code: string, now: Time)
    requires o < |orders| && forall j :: 0 <= j < o ==> orders[j].id != orders[o].id
    requires orders[o].lines != [] && code != ""
    requires k < |promos| && promos[k].code == code && forall j :: 0 <= j < k ==> promos[j].code != code
    ensures var p := promos[k];
      var total := Total(orders[o].lines);
      var d := Discount(p.discountType, p.discountAmount, total);
      Preview(orders, promos, Some(orders[o].id), Some(code), now) ==
        if p.expiresAt.Some? && now > p.expiresAt.value then Failure(PromoExpired)
        else Success(Quote(total, d, total - d))
  {
    FirstWhereFirst(orders, (x: Order) => x.id == orders[o].id);
    FirstWhereFirst(promos, (p: Promo) => p.code == code);
  }

  /** Example: nothing clamps the preview; a flat promo of 500 on an order of 300 quotes -200. */
  lemma PreviewCanGoNegative()
    ensures var orders := [Order(1, 9, [OrderLine(2, "GA", 3.0, 100.0)], 300.0, 5, 6, Pending, 0)];
      var promos := [Promo(3, "BIG", 500.0, Flat, "", 5, Some(6), None, true)];
      Preview(orders, promos, Some(1), Some("BIG"), 0) == Success(Quote(300.0, 500.0, -200.0))
  {
    var orders := [Order(1, 9, [OrderLine(2, "GA", 3.0, 100.0)], 300.0, 5, 6, Pending, 0)];
    assert Total(orders[0].lines) == 300.0;
  }

  /** Promos that differ only in their active flags quote the same preview: the
      preview never consults `isActive`. */
  lemma PreviewIgnoresActiveFlag(orders: seq<Order>, promos: seq<Promo>, flags: seq<bool>, orderId: Option<Id>, promoCode: Option<string>, now: Time)
    requires |flags| == |promos|
    ensures var toggled := seq(|promos|, k requires 0 <= k < |promos| => promos[k].(isActive := flags[k]));
      Preview(orders, toggled, orderId, promoCode, now) == Preview(orders, promos, orderId, promoCode, now)
  {
    var toggled := seq(|promos|, k requires 0 <= k < |promos| => promos[k].(isActive := flags[k]));
    if Truthy(promoCode) {
      var p := (x: Promo) => x.code == promoCode.value;
      FirstWhereAgrees(toggled, promos, p);
    }
  }
}
