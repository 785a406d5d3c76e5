/** Ticket inventory bookkeeping shared by the order handlers: every change an
    order makes to an event's tiers is a list of signed moves, each applied to
    the first tier carrying the move's ticket id (`event.tickets.find`). */
module Inventory {
  import opened Common
  import opened Models

  /** The index of the first tier with this id. */
  function TierAt(tiers: seq<Tier>, id: Id): (r: Option<nat>)
    ensures r.Some? ==> r.value < |tiers| && tiers[r.value].id == id
  {
    if tiers == [] then None
    else if tiers[0].id == id then Some(0)
    else match TierAt(tiers[1..], id)
      case None => None
      case Some(k) => Some(k + 1)
  }

  /** The tier found is the first with that id, and none is found exactly when
      no tier carries it. */
  lemma {:induction false} TierAtFirst(tiers: seq<Tier>, id: Id)
    ensures TierAt(tiers, id).Some? ==> forall k :: 0 <= k < TierAt(tiers, id).value ==> tiers[k].id != id
    ensures TierAt(tiers, id).None? <==> forall k :: 0 <= k < |tiers| ==> tiers[k].id != id
  {
    if tiers != [] {
      TierAtFirst(tiers[1..], id);
      assert forall k :: 1 <= k < |tiers| ==> tiers[k] == tiers[1..][k - 1];
    }
  }

  /** Two tier lists of the same length whose tiers carry the same ids, position by position. */
  ghost predicate SameIds(a: seq<Tier>, b: seq<Tier>) {
    |a| == |b| && forall j :: 0 <= j < |a| ==> a[j].id == b[j].id
  }

  /** Lookups by id only see ids, so lists with the same ids resolve every id alike. */
  lemma {:induction false} TierAtSameIds(a: seq<Tier>, b: seq<Tier>, id: Id)
    requires SameIds(a, b)
    ensures TierAt(a, id) == TierAt(b, id)
  {
    if a != [] {
      assert SameIds(a[1..], b[1..]);
      TierAtSameIds(a[1..], b[1..], id);
    }
  }

  /** A signed change to the remaining count of the tier with this id. */
  datatype Move = Move(ticketId: Id, delta: real)

  /** Adds `delta` to the first tier with this id (`eventTicket.quantity += delta`);
      an id no tier carries changes nothing. */
  function Shift(tiers: seq<Tier>, id: Id, delta: real): (r: seq<Tier>)
    ensures |r| == |tiers|
  {
    match TierAt(tiers, id)
    case None => tiers
    case Some(j) => tiers[j := tiers[j].(quantity := tiers[j].quantity + delta)]
  }

  /** Shifting changes the remaining count of the tier the id resolves to by
      `delta`, and nothing else about any tier. */
  lemma ShiftAt(tiers: seq<Tier>, id: Id, delta: real)
    ensures SameIds(Shift(tiers, id, delta), tiers)
    ensures forall j :: 0 <= j < |tiers| ==>
      Shift(tiers, id, delta)[j] == tiers[j].(quantity := tiers[j].quantity + (if TierAt(tiers, id) == Some(j) then delta else 0.0))
  {
  }

  /** The moves applied one after another, in list order. */
  function ApplyMoves(tiers: seq<Tier>, moves: seq<Move>): seq<Tier>
    decreases |moves|
  {
    if moves == [] then tiers
    else ApplyMoves(Shift(tiers, moves[0].ticketId, moves[0].delta), moves[1..])
  }

  /** Applying a move in front of others applies it first. */
  lemma ApplyMovesFront(tiers: seq<Tier>, id: Id, delta: real, rest: seq<Move>)
    ensures ApplyMoves(tiers, [Move(id, delta)] + rest) == ApplyMoves(Shift(tiers, id, delta), rest)
  {
    assert ([Move(id, delta)] + rest)[1..] == rest;
  }

  /** The sum of the deltas of the moves that land on tier `j`. */
  function Net(tiers: seq<Tier>, moves: seq<Move>, j: nat): real
    decreases |moves|
  {
    if moves == [] then 0.0
    else (if TierAt(tiers, moves[0].ticketId) == Some(j) then moves[0].delta else 0.0)
         + Net(tiers, moves[1..], j)
  }

  lemma {:induction false} NetSameIds(a: seq<Tier>, b: seq<Tier>, moves: seq<Move>, j: nat)
    requires SameIds(a, b)
    ensures Net(a, moves, j) == Net(b, moves, j)
    decreases |moves|
  {
    if moves != [] {
      TierAtSameIds(a, b, moves[0].ticketId);
      NetSameIds(a, b, moves[1..], j);
    }
  }

  /** Applying moves changes each tier's remaining count by exactly the net of the
      moves that land on it, and nothing else about any tier. */
  lemma {:induction false} ApplyMovesAt(tiers: seq<Tier>, moves: seq<Move>)
    ensures SameIds(ApplyMoves(tiers, moves), tiers)
    ensures forall j :: 0 <= j < |tiers| ==>
      ApplyMoves(tiers, moves)[j] == tiers[j].(quantity := tiers[j].quantity + Net(tiers, moves, j))
    decreases |moves|
  {
    if moves != [] {
      var m := moves[0];
      var t1 := Shift(tiers, m.ticketId, m.delta);
      ShiftAt(tiers, m.ticketId, m.delta);
      ApplyMovesAt(t1, moves[1..]);
      forall j | 0 <= j < |tiers|
        ensures ApplyMoves(tiers, moves)[j] == tiers[j].(quantity := tiers[j].quantity + Net(tiers, moves, j))
      {
        NetSameIds(t1, tiers, moves[1..], j);
      }
    }
  }

  /** The moves of `b` after those of `a` are the moves of `a + b`. */
  lemma {:induction false} ApplyMovesAppend(tiers: seq<Tier>, a: seq<Move>, b: seq<Move>)
    ensures ApplyMoves(tiers, a + b) == ApplyMoves(ApplyMoves(tiers, a), b)
    decreases |a|
  {
    if a == [] {
      assert a + b == b;
    } else {
      assert (a + b)[1..] == a[1..] + b;
      ApplyMovesAppend(Shift(tiers, a[0].ticketId, a[0].delta), a[1..], b);
    }
  }

  /** Negating every delta negates the net on every tier. */
  function Negated(moves: seq<Move>): (r: seq<Move>)
    ensures |r| == |moves|
    ensures forall k :: 0 <= k < |r| ==> r[k] == Move(moves[k].ticketId, -moves[k].delta)
  {
    if moves == [] then [] else [Move(moves[0].ticketId, -moves[0].delta)] + Negated(moves[1..])
  }

  lemma {:induction false} NetNegated(tiers: seq<Tier>, moves: seq<Move>, j: nat)
    ensures Net(tiers, Negated(moves), j) == -Net(tiers, moves, j)
    decreases |moves|
  {
    if moves != [] {
      assert Negated(moves)[1..] == Negated(moves[1..]);
      NetNegated(tiers, moves[1..], j);
    }
  }

  /** Moves followed by their negation give the original tiers back. */
  lemma UndoMoves(tiers: seq<Tier>, moves: seq<Move>)
    ensures ApplyMoves(ApplyMoves(tiers, moves), Negated(moves)) == tiers
  {
    var mid := ApplyMoves(tiers, moves);
    var fin := ApplyMoves(mid, Negated(moves));
    ApplyMovesAt(tiers, moves);
    ApplyMovesAt(mid, Negated(moves));
    forall j | 0 <= j < |tiers| ensures fin[j] == tiers[j] {
      NetNegated(mid, moves, j);
      NetSameIds(mid, tiers, moves, j);
    }
  }

  /** No tier has a negative remaining count. */
  ghost predicate InStock(tiers: seq<Tier>) {
    forall j :: 0 <= j < |tiers| ==> tiers[j].quantity >= 0.0
  }
}
