/** The average-cost fold told by fields: what a buy, a sell and anything else do to every position and bucket, and the
    closed forms over whole histories. */
module CostBasisLaws {
  import opened Outcomes
  import opened Ordering
  import opened InvestmentEvents
  import opened CostBasis

  // ---------------------------------------------------------------- one more event

  function Paid(o: Option<real>): real {
    if o.Some? then o.value else 0.0
  }

  function HeldIn(ps: Positions, k: PositionKey): real {
    if k in ps then ps[k].quantity else 0.0
  }

  function StoredBucket(ps: Positions, k: PositionKey, c: string): Bucket {
    if k in ps && c in ps[k].buckets then ps[k].buckets[c] else Bucket(0.0, 0.0, 0.0)
  }

  /** One bucket becomes `b` and its position's quantity moves by `delta`; nothing else changes. */
  ghost predicate OnlyMoves(ps: Positions, ps': Positions, d: EventData, delta: real, b: Bucket) {
    var key := PositionKey(d.ticker, d.isin);
    && ps'.Keys == ps.Keys + {key}
    && (forall k :: k in ps && k != key ==> ps'[k] == ps[k])
    && ps'[key].quantity == HeldIn(ps, key) + delta
    && ps'[key].buckets.Keys == (if key in ps then ps[key].buckets.Keys else {}) + {d.currency}
    && (forall c :: c in ps'[key].buckets && c != d.currency ==> ps'[key].buckets[c] == ps[key].buckets[c])
    && ps'[key].buckets[d.currency] == b
  }

  lemma {:induction false} OneMoreEvent(s: seq<EventData>, d: EventData)
    requires BuildPositions(s).Some?
    ensures BuildPositions(s + [d]) == ApplyEvent(BuildPositions(s).value, d)
  {
    assert (s + [d])[..|s|] == s;
  }

  /** A buy adds its quantity, and amount, fees and taxes to the cost; the realised gain stays. */
  lemma {:induction false} BuyAddsItsCost(s: seq<EventData>, d: EventData, q: real)
    requires BuildPositions(s).Some? && d.eventType == MarketBuy && d.quantity == Some(q) && q > 0.0
    ensures BuildPositions(s + [d]).Some?
    ensures var was := StoredBucket(BuildPositions(s).value, PositionKey(d.ticker, d.isin), d.currency);
      OnlyMoves(BuildPositions(s).value, BuildPositions(s + [d]).value, d, q,
                Bucket(was.quantity + q, was.totalCost + d.amount + Paid(d.fees) + Paid(d.taxes), was.realisedGain))
  {
    OneMoreEvent(s, d);
  }

  /** A sell raises exactly when its bucket holds less. Else it takes its share of the cost out, the whole cost when
      nothing is left, and realises amount less fees, taxes and that share. */
  lemma {:induction false} SellTakesItsShare(s: seq<EventData>, d: EventData, q: real)
    requires BuildPositions(s).Some? && d.eventType == MarketSell && d.quantity == Some(q) && q > 0.0
    ensures var was := StoredBucket(BuildPositions(s).value, PositionKey(d.ticker, d.isin), d.currency);
      && (BuildPositions(s + [d]).None? <==> q > was.quantity)
      && (q <= was.quantity ==>
           var share := if q == was.quantity then was.totalCost else was.totalCost / was.quantity * q;
           OnlyMoves(BuildPositions(s).value, BuildPositions(s + [d]).value, d, -q,
                     Bucket(was.quantity - q, was.totalCost - share,
                            was.realisedGain + d.amount - Paid(d.fees) - Paid(d.taxes) - share)))
  {
    var was := StoredBucket(BuildPositions(s).value, PositionKey(d.ticker, d.isin), d.currency);
    OneMoreEvent(s, d);
    if q <= was.quantity { SoldBucket(was, d, q); }
  }

  lemma {:induction false} SoldBucket(was: Bucket, d: EventData, q: real)
    requires d.eventType == MarketSell && d.quantity == Some(q) && 0.0 < q <= was.quantity
    ensures var share := if q == was.quantity then was.totalCost else was.totalCost / was.quantity * q;
      ApplyToBucket(was, d)
      == Some(Bucket(was.quantity - q, was.totalCost - share,
                     was.realisedGain + d.amount - Paid(d.fees) - Paid(d.taxes) - share))
  {
    var costOfSold := was.totalCost / was.quantity * q;
    if q == was.quantity { WholeCost(was.totalCost, was.quantity, q); }
    assert ApplyToBucket(was, d).value.realisedGain == was.realisedGain + (NetProceeds(d) - costOfSold);
  }

  lemma {:induction false} WholeCost(cost: real, held: real, q: real)
    requires held > 0.0 && q == held
    ensures cost / held * q == cost
  {
  }

  /** Events of other types, and trades without a positive quantity, change nothing. */
  lemma {:induction false} OthersAreSkipped(s: seq<EventData>, d: EventData)
    requires BuildPositions(s).Some?
    requires d.eventType.NonMarket? || d.quantity.None? || d.quantity.value <= 0.0
    ensures BuildPositions(s + [d]) == BuildPositions(s)
  {
    OneMoreEvent(s, d);
  }

  // ---------------------------------------------------------------- closed forms

  /** What the buys of a history cost, fees and taxes included. */
  function PaidForBuys(s: seq<EventData>): real {
    if |s| == 0 then 0.0
    else
      var d := s[|s| - 1];
      PaidForBuys(s[..|s| - 1]) + if d.eventType == MarketBuy then d.amount + Paid(d.fees) + Paid(d.taxes) else 0.0
  }

  function UnitsBought(s: seq<EventData>): real {
    if |s| == 0 then 0.0
    else
      var d := s[|s| - 1];
      UnitsBought(s[..|s| - 1]) + if d.eventType == MarketBuy && d.quantity.Some? then d.quantity.value else 0.0
  }

  /** The history's trades under one stored key with a positive quantity. */
  function TradesUnder(ticker: Option<string>, isin: Option<string>, currency: string): EventData -> bool {
    (d: EventData) =>
      d.ticker == ticker && d.isin == isin && d.currency == currency && !d.eventType.NonMarket?
      && d.quantity.Some? && d.quantity.value > 0.0
  }

  ghost predicate OnlyBuys(s: seq<EventData>) {
    forall i :: 0 <= i < |s| ==> s[i].eventType == MarketBuy
  }

  lemma {:induction false} BuysFold(s: seq<EventData>)
    requires AllCount(s) && OnlyBuys(s)
    ensures BucketFold(s) == Some(Bucket(UnitsBought(s), PaidForBuys(s), 0.0))
  {
    if |s| > 0 {
      BuysFold(s[..|s| - 1]);
    }
  }

  /** While a stored key has only been bought, its bucket holds all units at all their cost and no gain. */
  lemma {:induction false} BoughtBucket(s: seq<EventData>, k: PositionKey, c: string)
    requires BuildPositions(s).Some? && OnlyBuys(Keep(TradesUnder(k.ticker, k.isin, c), s))
    ensures var own := Keep(TradesUnder(k.ticker, k.isin, c), s);
      StoredBucket(BuildPositions(s).value, k, c) == Bucket(UnitsBought(own), PaidForBuys(own), 0.0)
  {
    var r, own := RawKey(k.ticker, k.isin, c), Keep(TradesUnder(k.ticker, k.isin, c), s);
    KeepAgree(OfRawKey(r), TradesUnder(k.ticker, k.isin, c), s);
    KeepAll(OfRawKey(r), s);
    InterleavedEqualsIndependent(s);
    assert BucketOf(r, s) == Some(BucketIn(BuildPositions(s).value, r));
    BuysFold(own);
  }

  /** The realised gain of a bucket moves only at its own sells. */
  lemma {:induction false} GainMovesOnlyAtSells(s: seq<EventData>, t: seq<EventData>, k: PositionKey, c: string)
    requires BuildPositions(s + t).Some? && OnlyBuys(Keep(TradesUnder(k.ticker, k.isin, c), t))
    ensures BuildPositions(s).Some?
    ensures StoredBucket(BuildPositions(s + t).value, k, c).realisedGain
         == StoredBucket(BuildPositions(s).value, k, c).realisedGain
  {
    if |t| == 0 {
      assert s + t == s;
    } else {
      var init, d := t[..|t| - 1], t[|t| - 1];
      assert s + t == s + init + [d];
      assert (s + t)[..|s + init|] == s + init;
      var own := Keep(TradesUnder(k.ticker, k.isin, c), init);
      assert forall i :: 0 <= i < |own| ==> own[i] == Keep(TradesUnder(k.ticker, k.isin, c), t)[i];
      GainMovesOnlyAtSells(s, init, k, c);
      OneMoreEvent(s + init, d);
      if TradesUnder(k.ticker, k.isin, c)(d) {
        assert Keep(TradesUnder(k.ticker, k.isin, c), t)[|own|] == d;
      }
    }
  }

  // ---------------------------------------------------------------- the valuation's holdings

  /** The event trades units of the position on the day or before it. */
  predicate TradesBy(d: EventData, k: PositionKey, date: int) {
    && d.date <= date && (d.eventType == MarketBuy || d.eventType == MarketSell) && d.ticker == k.ticker && d.isin == k.isin
    && d.quantity.Some? && d.quantity.value > 0.0
  }

  /** Units bought less units sold by the end of a day. */
  function HeldOn(events: seq<EventData>, k: PositionKey, date: int): real {
    if |events| == 0 then 0.0
    else
      var d := events[|events| - 1];
      HeldOn(events[..|events| - 1], k, date)
      + if !TradesBy(d, k, date) then 0.0 else if d.eventType == MarketBuy then d.quantity.value else 0.0 - d.quantity.value
  }

  lemma {:induction false} HeldOnIsNet(events: seq<EventData>, k: PositionKey, date: int)
    ensures QuantityOf(k, Keep(UpTo(date), events)) == HeldOn(events, k, date)
  {
    if |events| > 0 {
      var init, d := events[..|events| - 1], events[|events| - 1];
      HeldOnIsNet(init, k, date);
      var kept := Keep(UpTo(date), init);
      QuantityOfExtended(k, kept, d);
      assert kept + [] == kept;
      assert OfPosition(k)(d) && d.date <= date <==> TradesBy(d, k, date);
    }
  }

  /** The valuation holds, for exactly the positions traded by a day, the units bought less those sold. */
  lemma {:induction false} HoldingsByFields(holdings: map<PositionKey, real>, events: seq<EventData>, date: int,
                                            k: PositionKey)
    requires HoldsNet(holdings, Keep(UpTo(date), events))
    ensures k in holdings <==> exists i :: 0 <= i < |events| && TradesBy(events[i], k, date)
    ensures (if k in holdings then holdings[k] else 0.0) == HeldOn(events, k, date)
  {
    var relevant := Keep(UpTo(date), events);
    assert HoldsNetAt(holdings, relevant, k);
    HeldOnIsNet(events, k, date);
    KeepMembers(UpTo(date), events);
    if i :| 0 <= i < |events| && TradesBy(events[i], k, date) {
      assert events[i] in relevant;
      var j :| 0 <= j < |relevant| && relevant[j] == events[i];
      assert OfPosition(k)(relevant[j]);
    }
    if k in holdings {
      var j :| 0 <= j < |relevant| && OfPosition(k)(relevant[j]);
      assert relevant[j] in relevant;
      var i :| 0 <= i < |events| && events[i] == relevant[j];
      assert TradesBy(events[i], k, date);
    }
  }
}
