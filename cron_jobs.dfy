/** The nightly promo expiry sweep (utils/cronJobs.js, `updateExpiredPromoCodes`):
    one `updateMany` that switches off every active promo whose expiry lies
    strictly before now. */
module CronJobs {
  import opened Common
  import opened Models
  import opened Store

  /** The sweep's filter: `{ expiresAt: { $lt: now }, isActive: true }`. A promo
      without an expiry never matches. */
  predicate Lapsed(p: Promo, now: Time) {
    p.expiresAt.Some? && p.expiresAt.value < now && p.isActive
  }

  /** One promo after the `$set: { isActive: false }` of the sweep. */
  function Swept(p: Promo, now: Time): Promo {
    if Lapsed(p, now) then p.(isActive := false) else p
  }

  /** Every promo after the sweep, position by position. */
  function Sweep(promos: seq<Promo>, now: Time): (r: seq<Promo>)
    ensures |r| == |promos|
    ensures forall k :: 0 <= k < |r| ==> r[k].(isActive := promos[k].isActive) == promos[k]
    ensures forall k :: 0 <= k < |r| && r[k].isActive ==> promos[k].isActive
  {
    seq(|promos|, k requires 0 <= k < |promos| => Swept(promos[k], now))
  }

  /** The number of promos the filter matches (`result.modifiedCount`). */
  function CountLapsed(promos: seq<Promo>, now: Time): nat
    decreases |promos|
  {
    if promos == [] then 0
    else CountLapsed(promos[..|promos| - 1], now) + (if Lapsed(promos[|promos| - 1], now) then 1 else 0)
  }

  /** The bulk update as a loop over the collection: matching promos are switched
      off in place, and the count of modified documents is returned. */
  method UpdateExpiredPromoCodes(promos: array<Promo>, now: Time) returns (modified: nat)
    modifies promos
    ensures promos[..] == Sweep(old(promos[..]), now)
    ensures modified == CountLapsed(old(promos[..]), now)
  {
    ghost var before := promos[..];
    modified := 0;
    var i := 0;
    while i < promos.Length
      invariant 0 <= i <= promos.Length
      invariant forall k :: 0 <= k < i ==> promos[k] == Swept(before[k], now)
      invariant forall k :: i <= k < promos.Length ==> promos[k] == before[k]
      invariant modified == CountLapsed(before[..i], now)
    {
      assert before[..i + 1][..i] == before[..i];
      if promos[i].expiresAt.Some? && promos[i].expiresAt.value < now && promos[i].isActive {
        promos[i] := promos[i].(isActive := false);
        modified := modified + 1;
      }
      i := i + 1;
    }
    assert before[..i] == before;
  }

  /** The sweep run against the promo collection. A failing `updateMany` is only
      logged and never reaches the caller, so the sweep has no error result. */
  method SweepPromoCollection(db: Database, now: Time) returns (modified: nat)
    modifies db`promos
    ensures db.promos == Sweep(old(db.promos), now)
    ensures modified == CountLapsed(old(db.promos), now)
  {
    var current := db.promos;
    var a := new Promo[|current|](k requires 0 <= k < |current| => current[k]);
    assert a[..] == current;
    modified := UpdateExpiredPromoCodes(a, now);
    db.promos := a[..];
  }

  /** The sweep switches off exactly the promos the filter matches, changes no
      other field of any promo, and keeps the collection's size and order. */
  lemma SweepSwitchesOffExactlyLapsed(promos: seq<Promo>, now: Time)
    ensures |Sweep(promos, now)| == |promos|
    ensures forall k :: 0 <= k < |promos| ==>
      && (Sweep(promos, now)[k] != promos[k] <==> Lapsed(promos[k], now))
      && Sweep(promos, now)[k].(isActive := promos[k].isActive) == promos[k]
  {
  }

  /** The sweep never switches a promo on. */
  lemma SweepNeverActivates(promos: seq<Promo>, now: Time)
    ensures forall k :: 0 <= k < |promos| ==> Sweep(promos, now)[k].isActive ==> promos[k].isActive
  {
  }

  /** A second sweep with the same clock finds nothing to modify and changes nothing. */
  lemma {:induction false} SweepIdempotent(promos: seq<Promo>, now: Time)
    ensures CountLapsed(Sweep(promos, now), now) == 0
    ensures Sweep(Sweep(promos, now), now) == Sweep(promos, now)
    decreases |promos|
  {
    if promos != [] {
      var n := |promos|;
      var init := promos[..n - 1];
      assert Sweep(promos, now)[..n - 1] == Sweep(init, now);
      SweepIdempotent(init, now);
    }
  }

  /** The count reported is the number of promos the filter matches, which by
      `SweepSwitchesOffExactlyLapsed` are the promos whose record changed. */
  lemma {:induction false} CountLapsedCountsMatches(promos: seq<Promo>, now: Time)
    ensures CountLapsed(promos, now) == |set k | 0 <= k < |promos| && Lapsed(promos[k], now)|
    decreases |promos|
  {
    var n := |promos|;
    var matched := set k | 0 <= k < n && Lapsed(promos[k], now);
    if n > 0 {
      var init := promos[..n - 1];
      CountLapsedCountsMatches(init, now);
      var earlier := set k | 0 <= k < n - 1 && Lapsed(init[k], now);
      assert earlier == matched - {n - 1};
      if Lapsed(promos[n - 1], now) {
        assert matched == earlier + {n - 1};
      } else {
        assert matched == earlier;
      }
    } else {
      assert matched == {};
    }
  }
}
