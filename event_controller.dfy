/** The event ticket inventory handlers (controllers/eventcontroller.js): adding
    tiers under the event's capacity, merging and patching tier lists, removing
    tiers and FAQs by id, the legacy buy-by-name decrement, the company
    visibility filter of the event listing, and who may edit or delete an event. */
module EventController {
  import opened Common
  import opened Models
  import opened Inventory
  import opened Store

  datatype EventError =
    | EventNotFound
    | InvalidEventId
    | NotAuthorized
    | CompanyIdMissing
    | CapacityUnset
    | OverCapacity(requested: real, capacity: real, available: real)
    | TicketNotFound
    | NameAndQuantityRequired
    | NotPositiveInteger
    | NotEnoughTickets
    | TierRejectedOnSave
  {
    function Status(): nat {
      match this
      case EventNotFound => 404
      case TicketNotFound => 404
      case NotAuthorized => 403
      case TierRejectedOnSave => 500
      case _ => 400
    }
  }

  // ---------------------------------------------------------------------------
  // addTickets: append new tiers when they fit the event's capacity
  // ---------------------------------------------------------------------------

  /** A tier as the request body describes it, before Mongoose gives it an id;
      its quantity is the raw body field. */
  datatype NewTier = NewTier(name: string, description: string, price: real, quantity: Field)

  /** `Number.isInteger` on a number. */
  predicate IsInteger(x: real) {
    x == x.Floor as real
  }

  /** What one existing tier adds to the capacity sum: its count when that is an
      integer, and 0 otherwise. */
  function Counted(t: Tier): real {
    if IsInteger(t.quantity) then t.quantity else 0.0
  }

  /** `existingTicketsTotal`: the counted quantities of the tiers. */
  function CountedTotal(tiers: seq<Tier>): (r: real)
    ensures (forall k :: 0 <= k < |tiers| ==> tiers[k].quantity >= 0.0) ==> r >= 0.0
    ensures (forall k :: 0 <= k < |tiers| ==> !IsInteger(tiers[k].quantity)) ==> r == 0.0
    decreases |tiers|
  {
    if tiers == [] then 0.0 else Counted(tiers[0]) + CountedTotal(tiers[1..])
  }

  /** `Number(ticket.quantity)`: the number, or `None` for the NaN that a missing
      or non-numeric quantity gives. */
  function NumberOf(f: Field): Option<real> {
    if f.Number? then Some(f.value) else None
  }

  /** `newTicketsTotal`: the requested quantities added up as they are; one NaN
      makes the whole sum NaN (`None`). */
  function RequestedTotal(reqs: seq<NewTier>): Option<real>
    decreases |reqs|
  {
    if reqs == [] then Some(0.0)
    else match (NumberOf(reqs[0].quantity), RequestedTotal(reqs[1..]))
      case (Some(a), Some(b)) => Some(a + b)
      case _ => None
  }

  /** The requested sum is NaN exactly when some requested quantity is not a number. */
  lemma {:induction false} RequestedTotalNaN(reqs: seq<NewTier>)
    ensures RequestedTotal(reqs).None? <==> exists k :: 0 <= k < |reqs| && !reqs[k].quantity.Number?
    decreases |reqs|
  {
    if reqs != [] {
      RequestedTotalNaN(reqs[1..]);
      if !reqs[0].quantity.Number? {
        assert !reqs[0].quantity.Number?;
      } else if exists k :: 0 <= k < |reqs[1..]| && !reqs[1..][k].quantity.Number? {
        var k :| 0 <= k < |reqs[1..]| && !reqs[1..][k].quantity.Number?;
        assert !reqs[k + 1].quantity.Number?;
      } else {
        forall k | 0 <= k < |reqs| ensures reqs[k].quantity.Number? {
          if k > 0 {
            assert reqs[k] == reqs[1..][k - 1];
          }
        }
      }
    }
  }

  /** Some requested quantity is a value Mongoose cannot cast to a number. */
  predicate Uncastable(reqs: seq<NewTier>) {
    exists k :: 0 <= k < |reqs| && reqs[k].quantity.NonNumber?
  }

  /** The count a pushed tier is stored with; a tier pushed without a quantity
      is stored with 0. */
  function StoredCount(f: Field): real {
    if f.Number? then f.value else 0.0
  }

  /** The requested tiers as pushed, with the ids `base`, `base + 1`, … that
      Mongoose gives the new subdocuments. */
  function Stamped(reqs: seq<NewTier>, base: Id): (r: seq<Tier>)
    ensures |r| == |reqs|
  {
    seq(|reqs|, k requires 0 <= k < |reqs| =>
      Tier(base + k, reqs[k].name, reqs[k].description, reqs[k].price, StoredCount(reqs[k].quantity)))
  }

  /** The capacity guard of addTickets on a found event, the save that follows
      it, and on success the event's new tier list. A NaN sum compares false with
      the capacity, so it passes the guard; the save then fails when a quantity
      cannot be cast. */
  function AddTiers(e: Event, reqs: seq<NewTier>, base: Id): (r: Result<seq<Tier>, EventError>)
    ensures r.Success? ==> |r.value| == |e.tiers| + |reqs|
  {
    if e.capacity.None? || e.capacity.value == 0.0 then Failure(CapacityUnset)
    else
      var existing := CountedTotal(e.tiers);
      var requested := RequestedTotal(reqs);
      if requested.Some? && existing + requested.value > e.capacity.value then
        Failure(OverCapacity(existing + requested.value, e.capacity.value, e.capacity.value - existing))
      else if Uncastable(reqs) then Failure(TierRejectedOnSave)
      else Success(e.tiers + Stamped(reqs, base))
  }

  /** The sum of counted quantities splits over a concatenation. */
  lemma {:induction false} CountedTotalAppend(a: seq<Tier>, b: seq<Tier>)
    ensures CountedTotal(a + b) == CountedTotal(a) + CountedTotal(b)
    decreases |a|
  {
    if a == [] {
      assert a + b == b;
    } else {
      assert (a + b)[1..] == a[1..] + b;
      CountedTotalAppend(a[1..], b);
    }
  }

  /** New tiers with integer counts are counted in full once they are stored. */
  lemma {:induction false} CountedStamped(reqs: seq<NewTier>, base: Id)
    requires forall k :: 0 <= k < |reqs| ==> reqs[k].quantity.Number? && IsInteger(reqs[k].quantity.value)
    ensures RequestedTotal(reqs).Some?
    ensures CountedTotal(Stamped(reqs, base)) == RequestedTotal(reqs).value
    decreases |reqs|
  {
    if reqs != [] {
      assert Stamped(reqs, base)[1..] == Stamped(reqs[1..], base + 1);
      CountedStamped(reqs[1..], base + 1);
    }
  }

  /** The request is refused for an unset or zero capacity; it is refused as over
      capacity exactly when every requested quantity is a number and the counted
      existing plus requested quantities exceed the capacity, reporting the room
      left by the existing tiers; past that guard a quantity that cannot be cast
      fails the save; otherwise the new tiers follow the old ones in request
      order, each with its own fresh id. */
  lemma AddTiersVerdict(e: Event, reqs: seq<NewTier>, base: Id)
    ensures AddTiers(e, reqs, base) == Failure(CapacityUnset) <==> e.capacity.None? || e.capacity.value == 0.0
    ensures AddTiers(e, reqs, base).Failure? && AddTiers(e, reqs, base).error.OverCapacity? <==>
      && e.capacity.Some? && e.capacity.value != 0.0
      && (forall k :: 0 <= k < |reqs| ==> reqs[k].quantity.Number?)
      && RequestedTotal(reqs).Some?
      && CountedTotal(e.tiers) + RequestedTotal(reqs).value > e.capacity.value
    ensures AddTiers(e, reqs, base).Failure? && AddTiers(e, reqs, base).error.OverCapacity? ==>
      AddTiers(e, reqs, base).error.available == e.capacity.value - CountedTotal(e.tiers)
    ensures AddTiers(e, reqs, base) == Failure(TierRejectedOnSave) <==>
      && e.capacity.Some? && e.capacity.value != 0.0
      && exists k :: 0 <= k < |reqs| && reqs[k].quantity.NonNumber?
    ensures AddTiers(e, reqs, base).Success? ==>
      var r := AddTiers(e, reqs, base).value;
      && r[..|e.tiers|] == e.tiers
      && forall k :: 0 <= k < |reqs| ==>
           && r[|e.tiers| + k].id == base + k
           && r[|e.tiers| + k].(id := 0) == Tier(0, reqs[k].name, reqs[k].description, reqs[k].price, StoredCount(reqs[k].quantity))
  {
    RequestedTotalNaN(reqs);
  }

  /** When every requested quantity is a whole number, a successful add keeps
      the counted sum of the stored tiers within the event's capacity. */
  lemma AddTiersWithinCapacity(e: Event, reqs: seq<NewTier>, base: Id)
    requires forall k :: 0 <= k < |reqs| ==> reqs[k].quantity.Number? && IsInteger(reqs[k].quantity.value)
    requires AddTiers(e, reqs, base).Success?
    ensures CountedTotal(AddTiers(e, reqs, base).value) <= e.capacity.value
  {
    CountedTotalAppend(e.tiers, Stamped(reqs, base));
    CountedStamped(reqs, base);
  }

  /** A request holding a tier without a quantity, and no uncastable one, is
      accepted on any event whose capacity is set, however much the other
      tiers ask for: the NaN sum never exceeds the capacity. */
  lemma MissingQuantitySkipsCapacity(e: Event, reqs: seq<NewTier>, base: Id)
    requires e.capacity.Some? && e.capacity.value != 0.0
    requires exists k :: 0 <= k < |reqs| && reqs[k].quantity.Absent?
    requires forall k :: 0 <= k < |reqs| ==> !reqs[k].quantity.NonNumber?
    ensures AddTiers(e, reqs, base) == Success(e.tiers + Stamped(reqs, base))
  {
    RequestedTotalNaN(reqs);
  }

  /** Example: an event of capacity 10 accepts a tier of 1000 next to a tier
      without a quantity, and then holds 1000 tickets. */
  lemma MissingQuantityOverfillsExample()
    ensures var e := Event(1, "Gala", "", Public, Some(10.0), [], [], 3);
      var reqs := [NewTier("A", "", 5.0, Number(1000.0)), NewTier("B", "", 5.0, Absent)];
      && AddTiers(e, reqs, 4).Success?
      && CountedTotal(AddTiers(e, reqs, 4).value) == 1000.0
  {
    var e := Event(1, "Gala", "", Public, Some(10.0), [], [], 3);
    var reqs := [NewTier("A", "", 5.0, Number(1000.0)), NewTier("B", "", 5.0, Absent)];
    assert reqs[1].quantity.Absent?;
    MissingQuantitySkipsCapacity(e, reqs, 4);
    var r := Stamped(reqs, 4);
    assert r == [Tier(4, "A", "", 5.0, 1000.0), Tier(5, "B", "", 5.0, 0.0)];
    assert (1000.0).Floor == 1000 && (0.0).Floor == 0;
    assert r[1..][1..] == [];
    assert CountedTotal(r[1..]) == 0.0;
    assert e.tiers + r == r;
  }

  /** Example: an existing tier with a fractional count adds nothing to the sum,
      so an event of capacity 10 holding 9.5 tickets still accepts a new tier of 10. */
  lemma FractionalTiersEscapeCapacity()
    ensures var e := Event(1, "Gala", "", Public, Some(10.0), [Tier(2, "GA", "", 5.0, 9.5)], [], 3);
      AddTiers(e, [NewTier("VIP", "", 9.0, Number(10.0))], 4) ==
        Success([Tier(2, "GA", "", 5.0, 9.5), Tier(4, "VIP", "", 9.0, 10.0)])
  {
    var e := Event(1, "Gala", "", Public, Some(10.0), [Tier(2, "GA", "", 5.0, 9.5)], [], 3);
    var reqs := [NewTier("VIP", "", 9.0, Number(10.0))];
    assert (9.5).Floor == 9;
    assert e.tiers[1..] == [] && reqs[1..] == [];
    assert CountedTotal(e.tiers) == 0.0;
    assert RequestedTotal(reqs) == Some(10.0);
    assert !Uncastable(reqs);
    assert Stamped(reqs, 4) == [Tier(4, "VIP", "", 9.0, 10.0)];
    assert AddTiers(e, reqs, 4) == Success(e.tiers + Stamped(reqs, 4));
    assert e.tiers + Stamped(reqs, 4) == [Tier(2, "GA", "", 5.0, 9.5), Tier(4, "VIP", "", 9.0, 10.0)];
  }

  /** addTickets: on a found event whose capacity admits the request and whose
      new tiers can be saved, the new tiers are appended and saved; any failure
      saves nothing. */
  method AddTickets(db: Database, eventId: Id, reqs: seq<NewTier>) returns (r: Result<Event, EventError>)
    modifies db`events, db`nextId
    ensures match EventAt(old(db.events), eventId)
      case None => r == Failure(EventNotFound) && db.events == old(db.events) && db.nextId == old(db.nextId)
      case Some(i) => match AddTiers(old(db.events)[i], reqs, old(db.nextId))
        case Failure(err) => r == Failure(err) && db.events == old(db.events) && db.nextId == old(db.nextId)
        case Success(tiers) =>
          && r == Success(old(db.events)[i].(tiers := tiers))
          && db.events == old(db.events)[i := r.value]
          && db.nextId == old(db.nextId) + |reqs|
  {
    var found := EventAt(db.events, eventId);
    if found.None? {
      return Failure(EventNotFound);
    }
    var i := found.value;
    var event := db.events[i];
    if event.capacity.None? || event.capacity.value == 0.0 {
      return Failure(CapacityUnset);
    }
    var existing := CountedTotal(event.tiers);
    var requested := RequestedTotal(reqs);
    if requested.Some? && existing + requested.value > event.capacity.value {
      return Failure(OverCapacity(existing + requested.value, event.capacity.value, event.capacity.value - existing));
    }
    if Uncastable(reqs) {
      return Failure(TierRejectedOnSave);
    }
    event := event.(tiers := event.tiers + Stamped(reqs, db.nextId));
    db.nextId := db.nextId + |reqs|;
    db.events := db.events[i := event];
    r := Success(event);
  }

  // ---------------------------------------------------------------------------
  // buyTicket: the legacy decrement of the first tier with a given name
  // ---------------------------------------------------------------------------

  /** The first tier with this name (`event.tickets.find`). */
  function TierNamed(tiers: seq<Tier>, name: string): (r: Option<nat>)
    ensures r.Some? ==> r.value < |tiers| && tiers[r.value].name == name
  {
    FirstWhere(tiers, (t: Tier) => t.name == name)
  }

  /** The guards of buyTicket in their order, and on success the event found
      with its new tier list. A falsy quantity (missing, null or 0) fails the
      presence test; a non-number fails the positive-integer test. */
  function Buy(events: seq<Event>, eventId: Id, ticketName: Option<string>, quantity: Field)
    : (r: Result<(nat, seq<Tier>), EventError>)
    ensures r.Success? ==> r.value.0 < |events| && |r.value.1| == |events[r.value.0].tiers|
  {
    if !Truthy(ticketName) || quantity.Absent? || quantity == Number(0.0) then Failure(NameAndQuantityRequired)
    else if quantity.NonNumber? || quantity.value <= 0.0 || !IsInteger(quantity.value) then Failure(NotPositiveInteger)
    else match EventAt(events, eventId)
      case None => Failure(EventNotFound)
      case Some(i) => match TierNamed(events[i].tiers, ticketName.value)
        case None => Failure(TicketNotFound)
        case Some(j) =>
          var t := events[i].tiers[j];
          if t.quantity < quantity.value then Failure(NotEnoughTickets)
          else Success((i, events[i].tiers[j := t.(quantity := t.quantity - quantity.value)]))
  }

  /** A purchase takes a positive whole number of tickets, exactly that many, from
      the first tier with the name asked for, and leaves it at 0 or more; every
      other tier, and every other field of that tier, is unchanged. */
  lemma BuyDecrementsExactly(events: seq<Event>, eventId: Id, ticketName: Option<string>, quantity: Field)
    requires Buy(events, eventId, ticketName, quantity).Success?
    ensures var (i, tiers) := Buy(events, eventId, ticketName, quantity).value;
      var prior := events[i].tiers;
      && events[i].id == eventId
      && quantity.Number? && quantity.value > 0.0 && IsInteger(quantity.value)
      && ticketName.Some?
      && TierNamed(prior, ticketName.value).Some?
      && var j := TierNamed(prior, ticketName.value).value;
           && (forall k :: 0 <= k < j ==> prior[k].name != ticketName.value)
           && tiers[j] == prior[j].(quantity := prior[j].quantity - quantity.value)
           && tiers[j].quantity >= 0.0
           && forall k :: 0 <= k < |prior| && k != j ==> tiers[k] == prior[k]
  {
    var i := EventAt(events, eventId).value;
    FirstWhereFirst(events[i].tiers, (t: Tier) => t.name == ticketName.value);
  }

  /** A valid request for a tier that exists is refused exactly when the tier
      has fewer tickets left than asked for. */
  lemma BuyRefusedIffShort(events: seq<Event>, eventId: Id, ticketName: Option<string>, q: real)
    requires Truthy(ticketName) && q > 0.0 && IsInteger(q)
    requires EventAt(events, eventId).Some?
    requires TierNamed(events[EventAt(events, eventId).value].tiers, ticketName.value).Some?
    ensures var tiers := events[EventAt(events, eventId).value].tiers;
      Buy(events, eventId, ticketName, Number(q)) == Failure(NotEnoughTickets) <==>
        tiers[TierNamed(tiers, ticketName.value).value].quantity < q
    ensures Buy(events, eventId, ticketName, Number(q)).Success? || Buy(events, eventId, ticketName, Number(q)) == Failure(NotEnoughTickets)
  {
  }

  /** Buying never drives a tier below zero. */
  lemma BuyKeepsInStock(events: seq<Event>, eventId: Id, ticketName: Option<string>, quantity: Field)
    requires Buy(events, eventId, ticketName, quantity).Success?
    requires InStock(events[Buy(events, eventId, ticketName, quantity).value.0].tiers)
    ensures InStock(Buy(events, eventId, ticketName, quantity).value.1)
  {
  }

  /** buyTicket: saves the event with the decremented tier, or fails and saves nothing. */
  method BuyTicket(db: Database, eventId: Id, ticketName: Option<string>, quantity: Field) returns (r: Result<Event, EventError>)
    modifies db`events
    ensures match Buy(old(db.events), eventId, ticketName, quantity)
      case Failure(err) => r == Failure(err) && db.events == old(db.events)
      case Success((i, tiers)) =>
        && r == Success(old(db.events)[i].(tiers := tiers))
        && db.events == old(db.events)[i := r.value]
  {
    if !Truthy(ticketName) || quantity.Absent? || quantity == Number(0.0) {
      return Failure(NameAndQuantityRequired);
    }
    if quantity.NonNumber? || quantity.value <= 0.0 || !IsInteger(quantity.value) {
      return Failure(NotPositiveInteger);
    }
    var found := EventAt(db.events, eventId);
    if found.None? {
      return Failure(EventNotFound);
    }
    var i := found.value;
    var event := db.events[i];
    var named := TierNamed(event.tiers, ticketName.value);
    if named.None? {
      return Failure(TicketNotFound);
    }
    var j := named.value;
    if event.tiers[j].quantity < quantity.value {
      return Failure(NotEnoughTickets);
    }
    event := event.(tiers := event.tiers[j := event.tiers[j].(quantity := event.tiers[j].quantity - quantity.value)]);
    db.events := db.events[i := event];
    r := Success(event);
  }

  // ---------------------------------------------------------------------------
  // updateEventTickets: overwrite known tiers, append the rest
  // ---------------------------------------------------------------------------

  /** One tier of the request body; `id` is its `_id`, when it has one. */
  datatype TierUpdate = TierUpdate(id: Option<Id>, name: string, description: string, price: real, quantity: real)

  /** The position `ticketMap` gives an id among the original tiers: the last
      tier carrying it, since a later `Map` entry replaces an earlier one. */
  function KeyAt(orig: seq<Tier>, id: Id): (r: Option<nat>)
    ensures r.Some? ==> r.value < |orig| && orig[r.value].id == id
    decreases |orig|
  {
    if orig == [] then None
    else if orig[|orig| - 1].id == id then Some(|orig| - 1)
    else KeyAt(orig[..|orig| - 1], id)
  }

  /** `incomingTicket._id && ticketMap.has(incomingTicket._id)` */
  predicate Known(orig: seq<Tier>, u: TierUpdate) {
    u.id.Some? && KeyAt(orig, u.id.value).Some?
  }

  /** The tiers of the request that the loop appends. */
  function UnknownTo(orig: seq<Tier>): TierUpdate -> bool {
    (u: TierUpdate) => !Known(orig, u)
  }

  /** A known tier after the loop assigns the four fields of the request. */
  function Overwritten(t: Tier, u: TierUpdate): Tier {
    t.(name := u.name, description := u.description, price := u.price, quantity := u.quantity)
  }

  /** A pushed tier keeps the `_id` it came with; one without gets the fresh id `next`. */
  function Fresh(u: TierUpdate, next: Id): Tier {
    Tier(if u.id.Some? then u.id.value else next, u.name, u.description, u.price, u.quantity)
  }

  /** The tier list being built and the next fresh id. */
  datatype Merge = Merge(tiers: seq<Tier>, next: Id)

  /** One turn of the loop. */
  function MergeStep(orig: seq<Tier>, m: Merge, u: TierUpdate): (r: Merge)
    requires |orig| <= |m.tiers|
    ensures |orig| <= |r.tiers|
  {
    if Known(orig, u) then
      var k := KeyAt(orig, u.id.value).value;
      Merge(m.tiers[k := Overwritten(m.tiers[k], u)], m.next)
    else
      Merge(m.tiers + [Fresh(u, m.next)], if u.id.Some? then m.next else m.next + 1)
  }

  /** The loop over the request's tiers, from the original list and the first fresh id. */
  function Merged(orig: seq<Tier>, incoming: seq<TierUpdate>, next: Id): (r: Merge)
    ensures |orig| <= |r.tiers|
    decreases |incoming|
  {
    if incoming == [] then Merge(orig, next)
    else MergeStep(orig, Merged(orig, incoming[..|incoming| - 1], next), incoming[|incoming| - 1])
  }

  /** The request tier that has the last say on original tier `k`, if any. */
  function LastUpdateFor(orig: seq<Tier>, incoming: seq<TierUpdate>, k: nat): Option<TierUpdate>
    decreases |incoming|
  {
    if incoming == [] then None
    else
      var u := incoming[|incoming| - 1];
      if Known(orig, u) && KeyAt(orig, u.id.value) == Some(k) then Some(u)
      else LastUpdateFor(orig, incoming[..|incoming| - 1], k)
  }

  /** The loop over the request's tiers, imperatively: `ticketMap` is `KeyAt`
      over the tiers the event had before the loop. */
  method MergeTickets(orig: seq<Tier>, incoming: seq<TierUpdate>, next: Id) returns (r: Merge)
    ensures r == Merged(orig, incoming, next)
  {
    r := Merge(orig, next);
    var i := 0;
    while i < |incoming|
      invariant 0 <= i <= |incoming|
      invariant r == Merged(orig, incoming[..i], next)
    {
      assert incoming[..i + 1][..i] == incoming[..i];
      var u := incoming[i];
      if u.id.Some? && KeyAt(orig, u.id.value).Some? {
        var k := KeyAt(orig, u.id.value).value;
        r := Merge(r.tiers[k := Overwritten(r.tiers[k], u)], r.next);
      } else if u.id.Some? {
        r := Merge(r.tiers + [Fresh(u, r.next)], r.next);
      } else {
        r := Merge(r.tiers + [Fresh(u, r.next)], r.next + 1);
      }
      i := i + 1;
    }
    assert incoming[..i] == incoming;
  }

  /** Each original tier stays in place and keeps its id; it carries the fields
      of the last request tier naming its id, or is untouched if none does. */
  lemma {:induction false} MergedKeepsOriginals(orig: seq<Tier>, incoming: seq<TierUpdate>, next: Id)
    ensures forall k :: 0 <= k < |orig| ==>
      Merged(orig, incoming, next).tiers[k] ==
        match LastUpdateFor(orig, incoming, k)
        case None => orig[k]
        case Some(u) => Overwritten(orig[k], u)
    decreases |incoming|
  {
    if incoming != [] {
      var init := incoming[..|incoming| - 1];
      MergedKeepsOriginals(orig, init, next);
    }
  }

  /** After the original tiers come exactly the request tiers whose id is not
      known, in request order, each carrying the request's fields. */
  lemma {:induction false} MergedAppendsUnknown(orig: seq<Tier>, incoming: seq<TierUpdate>, next: Id)
    ensures var r := Merged(orig, incoming, next).tiers;
      var added := Filter(incoming, UnknownTo(orig));
      && |r| == |orig| + |added|
      && forall k :: 0 <= k < |added| ==>
           && r[|orig| + k].(id := 0) == Fresh(added[k], 0).(id := 0)
           && (added[k].id.Some? ==> r[|orig| + k].id == added[k].id.value)
    decreases |incoming|
  {
    if incoming != [] {
      var n := |incoming|;
      var init := incoming[..n - 1];
      var u := incoming[n - 1];
      assert incoming == init + [u];
      MergedAppendsUnknown(orig, init, next);
      FilterAppend(init, [u], UnknownTo(orig));
      assert [u][1..] == [];
    }
  }

  /** The merge knows no capacity: an event of capacity 10 takes a new tier of 50. */
  lemma MergeIgnoresCapacity()
    ensures Merged([], [TierUpdate(None, "VIP", "", 1.0, 50.0)], 7).tiers == [Tier(7, "VIP", "", 1.0, 50.0)]
  {
    var incoming := [TierUpdate(None, "VIP", "", 1.0, 50.0)];
    assert incoming[..0] == [];
  }

  /** updateEventTickets: any found event is saved with the merged tiers,
      whatever its capacity. */
  method UpdateEventTickets(db: Database, eventId: Id, incoming: seq<TierUpdate>) returns (r: Result<Event, EventError>)
    modifies db`events, db`nextId
    ensures match EventAt(old(db.events), eventId)
      case None => r == Failure(EventNotFound) && db.events == old(db.events) && db.nextId == old(db.nextId)
      case Some(i) =>
        var m := Merged(old(db.events)[i].tiers, incoming, old(db.nextId));
        && r == Success(old(db.events)[i].(tiers := m.tiers))
        && db.events == old(db.events)[i := r.value]
        && db.nextId == m.next
  {
    var found := EventAt(db.events, eventId);
    if found.None? {
      return Failure(EventNotFound);
    }
    var i := found.value;
    var m := MergeTickets(db.events[i].tiers, incoming, db.nextId);
    var event := db.events[i].(tiers := m.tiers);
    db.events := db.events[i := event];
    db.nextId := m.next;
    r := Success(event);
  }

  // ---------------------------------------------------------------------------
  // updateSingleEventTicket: `??` patch of one tier
  // ---------------------------------------------------------------------------

  /** The fields of the request body; `None` is a missing or null field. */
  datatype TierPatch = TierPatch(name: Option<string>, description: Option<string>, price: Option<real>, quantity: Option<real>)

  function Or<T>(v: Option<T>, fallback: T): T {
    if v.Some? then v.value else fallback
  }

  /** The tier after `field = supplied ?? field` for each of its four fields. */
  function PatchedTier(t: Tier, p: TierPatch): (r: Tier)
    ensures r.id == t.id
    ensures p == TierPatch(None, None, None, None) ==> r == t
  {
    t.(name := Or(p.name, t.name), description := Or(p.description, t.description),
       price := Or(p.price, t.price), quantity := Or(p.quantity, t.quantity))
  }

  /** A field changes only when a value is supplied, then to that value; the id never changes. */
  lemma PatchedTierChangesOnlySupplied(t: Tier, p: TierPatch)
    ensures PatchedTier(t, p).id == t.id
    ensures PatchedTier(t, p).name == (if p.name.Some? then p.name.value else t.name)
    ensures PatchedTier(t, p).description == (if p.description.Some? then p.description.value else t.description)
    ensures PatchedTier(t, p).price == (if p.price.Some? then p.price.value else t.price)
    ensures PatchedTier(t, p).quantity == (if p.quantity.Some? then p.quantity.value else t.quantity)
    ensures p == TierPatch(None, None, None, None) ==> PatchedTier(t, p) == t
  {
  }

  /** Sending the same patch twice has the effect of sending it once. */
  lemma PatchedTierIdempotent(t: Tier, p: TierPatch)
    ensures PatchedTier(PatchedTier(t, p), p) == PatchedTier(t, p)
  {
  }

  /** updateSingleEventTicket: patches the first tier with this id (`tickets.id()`)
      and answers with it; a missing event or tier is a 404 and saves nothing. */
  method UpdateSingleEventTicket(db: Database, eventId: Id, ticketId: Id, p: TierPatch) returns (r: Result<Tier, EventError>)
    modifies db`events
    ensures match EventAt(old(db.events), eventId)
      case None => r == Failure(EventNotFound) && db.events == old(db.events)
      case Some(i) => match TierAt(old(db.events)[i].tiers, ticketId)
        case None => r == Failure(TicketNotFound) && db.events == old(db.events)
        case Some(j) =>
          var e := old(db.events)[i];
          && r == Success(PatchedTier(e.tiers[j], p))
          && db.events == old(db.events)[i := e.(tiers := e.tiers[j := r.value])]
  {
    var found := EventAt(db.events, eventId);
    if found.None? {
      return Failure(EventNotFound);
    }
    var i := found.value;
    var event := db.events[i];
    var at := TierAt(event.tiers, ticketId);
    if at.None? {
      return Failure(TicketNotFound);
    }
    var j := at.value;
    var ticket := PatchedTier(event.tiers[j], p);
    db.events := db.events[i := event.(tiers := event.tiers[j := ticket])];
    r := Success(ticket);
  }

  // ---------------------------------------------------------------------------
  // deleteEventTicket and deleteEventFaq: filter by id
  // ---------------------------------------------------------------------------

  /** `event.tickets.filter(ticket => ticket._id.toString() !== ticketId)` */
  function WithoutTier(tiers: seq<Tier>, id: Id): (r: seq<Tier>)
    ensures |r| <= |tiers|
  {
    Filter(tiers, (t: Tier) => t.id != id)
  }

  /** `event.faqs.filter(faq => faq._id.toString() !== faqId)` */
  function WithoutFaq(faqs: seq<Faq>, id: Id): (r: seq<Faq>)
    ensures |r| <= |faqs|
  {
    Filter(faqs, (f: Faq) => f.id != id)
  }

  /** Exactly the tiers with this id go; the rest stay, in their order; an id no
      tier carries changes nothing. */
  lemma WithoutTierRemovesExactly(tiers: seq<Tier>, id: Id)
    ensures forall t :: t in WithoutTier(tiers, id) <==> t in tiers && t.id != id
    ensures forall a, b :: tiers == a + b ==> WithoutTier(tiers, id) == WithoutTier(a, id) + WithoutTier(b, id)
    ensures (forall j :: 0 <= j < |tiers| ==> tiers[j].id != id) ==> WithoutTier(tiers, id) == tiers
  {
    FilterMembers(tiers, (t: Tier) => t.id != id);
    forall a, b | tiers == a + b
      ensures WithoutTier(tiers, id) == WithoutTier(a, id) + WithoutTier(b, id)
    {
      FilterAppend(a, b, (t: Tier) => t.id != id);
    }
    if forall j :: 0 <= j < |tiers| ==> tiers[j].id != id {
      FilterKeepsAll(tiers, (t: Tier) => t.id != id);
    }
  }

  /** Exactly the FAQs with this id go; the rest stay, in their order; an id no
      FAQ carries changes nothing. */
  lemma WithoutFaqRemovesExactly(faqs: seq<Faq>, id: Id)
    ensures forall f :: f in WithoutFaq(faqs, id) <==> f in faqs && f.id != id
    ensures forall a, b :: faqs == a + b ==> WithoutFaq(faqs, id) == WithoutFaq(a, id) + WithoutFaq(b, id)
    ensures (forall j :: 0 <= j < |faqs| ==> faqs[j].id != id) ==> WithoutFaq(faqs, id) == faqs
  {
    FilterMembers(faqs, (f: Faq) => f.id != id);
    forall a, b | faqs == a + b
      ensures WithoutFaq(faqs, id) == WithoutFaq(a, id) + WithoutFaq(b, id)
    {
      FilterAppend(a, b, (f: Faq) => f.id != id);
    }
    if forall j :: 0 <= j < |faqs| ==> faqs[j].id != id {
      FilterKeepsAll(faqs, (f: Faq) => f.id != id);
    }
  }

  /** deleteEventTicket: a found event is saved without the tiers of that id,
      even when there are none. */
  method DeleteEventTicket(db: Database, eventId: Id, ticketId: Id) returns (r: Result<Event, EventError>)
    modifies db`events
    ensures match EventAt(old(db.events), eventId)
      case None => r == Failure(EventNotFound) && db.events == old(db.events)
      case Some(i) =>
        && r == Success(old(db.events)[i].(tiers := WithoutTier(old(db.events)[i].tiers, ticketId)))
        && db.events == old(db.events)[i := r.value]
  {
    var found := EventAt(db.events, eventId);
    if found.None? {
      return Failure(EventNotFound);
    }
    var i := found.value;
    var event := db.events[i].(tiers := WithoutTier(db.events[i].tiers, ticketId));
    db.events := db.events[i := event];
    r := Success(event);
  }

  /** deleteEventFaq: a found event is saved without the FAQs of that id, even
      when there are none. */
  method DeleteEventFaq(db: Database, eventId: Id, faqId: Id) returns (r: Result<Event, EventError>)
    modifies db`events
    ensures match EventAt(old(db.events), eventId)
      case None => r == Failure(EventNotFound) && db.events == old(db.events)
      case Some(i) =>
        && r == Success(old(db.events)[i].(faqs := WithoutFaq(old(db.events)[i].faqs, faqId)))
        && db.events == old(db.events)[i := r.value]
  {
    var found := EventAt(db.events, eventId);
    if found.None? {
      return Failure(EventNotFound);
    }
    var i := found.value;
    var event := db.events[i].(faqs := WithoutFaq(db.events[i].faqs, faqId));
    db.events := db.events[i := event];
    r := Success(event);
  }

  // ---------------------------------------------------------------------------
  // Visibility and authorization
  // ---------------------------------------------------------------------------

  /** The company of the event's creator as the populated or fetched `createdBy`
      gives it: `None` when the creator is gone or has no company. */
  function CreatorCompany(users: seq<User>, e: Event): Option<Id> {
    match FirstWhere(users, (u: User) => u.id == e.createdBy)
    case None => None
    case Some(k) => users[k].companyId
  }

  /** The creator's company as getAllEvents populates it: `createdBy` is filled
      from the users and its `companyId` from the companies, so the id is there
      only when the creator is stored and so is a company with that id. */
  function PopulatedCompany(users: seq<User>, companies: seq<Company>, e: Event): (r: Option<Id>)
    ensures r.Some? ==> r == CreatorCompany(users, e) && exists k :: 0 <= k < |companies| && companies[k].id == r.value
  {
    match CreatorCompany(users, e)
    case None => None
    case Some(c) => if FirstWhere(companies, (x: Company) => x.id == c).Some? then Some(c) else None
  }

  /** The listing's filter: public, or created by a member of the caller's
      company, where that company is stored. */
  predicate VisibleTo(users: seq<User>, companies: seq<Company>, e: Event, companyId: Id)
    ensures e.view == Public ==> VisibleTo(users, companies, e, companyId)
    ensures VisibleTo(users, companies, e, companyId) && e.view != Public ==> CreatorCompany(users, e) == Some(companyId)
  {
    e.view == Public || PopulatedCompany(users, companies, e) == Some(companyId)
  }

  /** getAllEvents: 400 without a company in the token, otherwise the events
      that pass the filter. */
  function VisibleEvents(events: seq<Event>, users: seq<User>, companies: seq<Company>, actor: Actor)
    : (r: Result<seq<Event>, EventError>)
    ensures r.Failure? <==> actor.companyId.None?
    ensures r.Failure? ==> r.error == CompanyIdMissing
  {
    if actor.companyId.None? then Failure(CompanyIdMissing)
    else Success(Filter(events, (e: Event) => VisibleTo(users, companies, e, actor.companyId.value)))
  }

  /** The listing holds exactly the public events and the events whose stored
      creator belongs to the caller's company, that company being stored too;
      each event appears at most as often as stored. */
  lemma VisibleEventsExactly(events: seq<Event>, users: seq<User>, companies: seq<Company>, actor: Actor)
    requires actor.companyId.Some?
    ensures var r := VisibleEvents(events, users, companies, actor).value;
      && (forall e :: e in r <==>
            && e in events
            && (|| e.view == Public
                || (&& CreatorCompany(users, e) == actor.companyId
                    && exists k :: 0 <= k < |companies| && companies[k].id == actor.companyId.value)))
      && multiset(r) <= multiset(events)
  {
    var c := actor.companyId.value;
    FirstWhereFirst(companies, (x: Company) => x.id == c);
    FilterMembers(events, (e: Event) => VisibleTo(users, companies, e, c));
    FilterWithin(events, (e: Event) => VisibleTo(users, companies, e, c));
  }

  /** A private event whose creator's company id names no stored company is
      listed to no one, not even to the members of that company id. */
  lemma UnstoredCompanyHidesPrivate(events: seq<Event>, users: seq<User>, companies: seq<Company>, actor: Actor, e: Event)
    requires actor.companyId.Some? && e.view == Private
    requires CreatorCompany(users, e).Some?
    requires forall k :: 0 <= k < |companies| ==> companies[k].id != CreatorCompany(users, e).value
    ensures e !in VisibleEvents(events, users, companies, actor).value
  {
    FirstWhereFirst(companies, (x: Company) => x.id == CreatorCompany(users, e).value);
    FilterMembers(events, (x: Event) => VisibleTo(users, companies, x, actor.companyId.value));
  }

  /** updateEventBasic's `isOwner || isSameCompanyAdminOrManager`. The company
      test compares the two optional ids, so a missing company on both sides counts as a match. */
  predicate MayEdit(users: seq<User>, actor: Actor, e: Event)
    ensures e.createdBy == actor.id ==> MayEdit(users, actor, e)
    ensures !IsLead(actor.role) ==> (MayEdit(users, actor, e) <==> e.createdBy == actor.id)
  {
    e.createdBy == actor.id || (IsLead(actor.role) && CreatorCompany(users, e) == actor.companyId)
  }

  /** deleteEvent's `isOwner || isSameCompanyAdmin`. */
  predicate MayDelete(users: seq<User>, actor: Actor, e: Event)
    ensures e.createdBy == actor.id ==> MayDelete(users, actor, e)
    ensures actor.role != Admin ==> (MayDelete(users, actor, e) <==> e.createdBy == actor.id)
  {
    e.createdBy == actor.id || (actor.role == Admin && CreatorCompany(users, e) == actor.companyId)
  }

  /** Whoever may delete an event may edit it. */
  lemma DeleteRightsImplyEditRights(users: seq<User>, actor: Actor, e: Event)
    ensures MayDelete(users, actor, e) ==> MayEdit(users, actor, e)
  {
  }

  /** A manager who did not create an event may edit it exactly when it belongs
      to their company, and may never delete it. */
  lemma ManagerMayEditButNotDelete(users: seq<User>, actor: Actor, e: Event)
    requires actor.role == Manager && e.createdBy != actor.id
    ensures MayEdit(users, actor, e) <==> CreatorCompany(users, e) == actor.companyId
    ensures !MayDelete(users, actor, e)
  {
  }

  /** An admin or manager whose token has no company may edit, and an admin may
      delete, any event whose creator account no longer exists. */
  lemma CompanylessLeadReachesOrphanedEvents(users: seq<User>, actor: Actor, e: Event)
    requires IsLead(actor.role) && actor.companyId.None?
    requires forall k :: 0 <= k < |users| ==> users[k].id != e.createdBy
    ensures MayEdit(users, actor, e)
    ensures actor.role == Admin ==> MayDelete(users, actor, e)
  {
    FirstWhereFirst(users, (u: User) => u.id == e.createdBy);
  }

  /** updateEventBasic: after the id, existence and authorization checks, each of
      the name, description and view that is supplied and truthy is written;
      `validId` is `mongoose.Types.ObjectId.isValid(eventId)`. */
  method UpdateEventBasic(db: Database, actor: Actor, eventId: Id, validId: bool,
                          name: Option<string>, description: Option<string>, view: Option<View>)
    returns (r: Result<Event, EventError>)
    modifies db`events
    ensures !validId ==> r == Failure(InvalidEventId) && db.events == old(db.events)
    ensures validId && EventAt(old(db.events), eventId).None? ==> r == Failure(EventNotFound) && db.events == old(db.events)
    ensures validId && EventAt(old(db.events), eventId).Some? ==>
      var i := EventAt(old(db.events), eventId).value;
      var e := old(db.events)[i];
      if !MayEdit(db.users, actor, e) then r == Failure(NotAuthorized) && db.events == old(db.events)
      else
        && r == Success(e.(name := if Truthy(name) then name.value else e.name,
                           description := if Truthy(description) then description.value else e.description,
                           view := if view.Some? then view.value else e.view))
        && db.events == old(db.events)[i := r.value]
  {
    if !validId {
      return Failure(InvalidEventId);
    }
    var found := EventAt(db.events, eventId);
    if found.None? {
      return Failure(EventNotFound);
    }
    var i := found.value;
    var event := db.events[i];
    if !MayEdit(db.users, actor, event) {
      return Failure(NotAuthorized);
    }
    event := event.(name := if Truthy(name) then name.value else event.name,
                    description := if Truthy(description) then description.value else event.description,
                    view := if view.Some? then view.value else event.view);
    db.events := db.events[i := event];
    r := Success(event);
  }

  /** deleteEvent: after the id, existence and authorization checks the event is removed. */
  method DeleteEvent(db: Database, actor: Actor, eventId: Id, validId: bool) returns (r: Result<(), EventError>)
    modifies db`events
    ensures !validId ==> r == Failure(InvalidEventId) && db.events == old(db.events)
    ensures validId && EventAt(old(db.events), eventId).None? ==> r == Failure(EventNotFound) && db.events == old(db.events)
    ensures validId && EventAt(old(db.events), eventId).Some? ==>
      var i := EventAt(old(db.events), eventId).value;
      if !MayDelete(db.users, actor, old(db.events)[i]) then r == Failure(NotAuthorized) && db.events == old(db.events)
      else r == Success(()) && db.events == RemoveAt(old(db.events), i)
  {
    if !validId {
      return Failure(InvalidEventId);
    }
    var found := EventAt(db.events, eventId);
    if found.None? {
      return Failure(EventNotFound);
    }
    var i := found.value;
    if !MayDelete(db.users, actor, db.events[i]) {
      return Failure(NotAuthorized);
    }
    db.events := RemoveAt(db.events, i);
    r := Success(());
  }
}
