/** Moving weighted-average cost: the interleaved fold over all instruments, and its arithmetic. */
module CostBasis {
  import opened Outcomes
  import opened Ordering
  import opened InvestmentEvents

  datatype PositionKey = PositionKey(ticker: Option<string>, isin: Option<string>)
  datatype Bucket = Bucket(quantity: real, totalCost: real, realisedGain: real)
  datatype Position = Position(quantity: real, buckets: map<string, Bucket>)
  type Positions = map<PositionKey, Position>

  const EMPTY_BUCKET := Bucket(0.0, 0.0, 0.0)
  const NO_POSITION := Position(0.0, map[])

  /** Events the fold does not skip. */
  predicate Counts(d: EventData) {
    IsMarket(d) && d.quantity.Some? && d.quantity.value > 0.0
  }

  function PositionKeyOf(d: EventData): PositionKey {
    PositionKey(d.ticker, d.isin)
  }

  /** What a counted buy costs, fees and taxes included. */
  function AcquisitionCost(d: EventData): real {
    d.amount + d.fees.GetOr(0.0) + d.taxes.GetOr(0.0)
  }

  /** What a counted sell brings in, fees and taxes deducted. */
  function NetProceeds(d: EventData): real {
    d.amount - d.fees.GetOr(0.0) - d.taxes.GetOr(0.0)
  }

  function SignedQuantity(d: EventData): real
    requires Counts(d)
  {
    if d.eventType.MarketBuy? then d.quantity.value else -d.quantity.value
  }

  /** One trade on its bucket; nothing when the program raises. */
  function ApplyToBucket(b: Bucket, d: EventData): Option<Bucket>
    requires Counts(d)
  {
    var q := d.quantity.value;
    if d.eventType.MarketBuy? then
      Some(Bucket(b.quantity + q, b.totalCost + AcquisitionCost(d), b.realisedGain))
    else if b.quantity <= 0.0 || q > b.quantity then
      None
    else
      var costOfSold := b.totalCost / b.quantity * q;
      var gain := b.realisedGain + (NetProceeds(d) - costOfSold);
      if q == b.quantity then Some(Bucket(0.0, 0.0, gain))
      else Some(Bucket(b.quantity - q, b.totalCost - costOfSold, gain))
  }

  function BucketIn(ps: Positions, r: RawKey): Bucket {
    var k := PositionKey(r.ticker, r.isin);
    if k in ps && r.currency in ps[k].buckets then ps[k].buckets[r.currency] else EMPTY_BUCKET
  }

  function QuantityIn(ps: Positions, k: PositionKey): real {
    if k in ps then ps[k].quantity else 0.0
  }

  /** One step of the interleaved fold; nothing when the program raises. */
  function ApplyEvent(ps: Positions, d: EventData): Option<Positions> {
    if !Counts(d) then Some(ps)
    else
      var k := PositionKeyOf(d);
      var position := if k in ps then ps[k] else NO_POSITION;
      match ApplyToBucket(BucketIn(ps, RawKeyOf(d)), d)
      case None => None
      case Some(b) =>
        Some(ps[k := Position(position.quantity + SignedQuantity(d), position.buckets[d.currency := b])])
  }

  function BuildPositions(s: seq<EventData>): Option<Positions> {
    if |s| == 0 then Some(map[])
    else match BuildPositions(s[..|s| - 1])
      case None => None
      case Some(ps) => ApplyEvent(ps, s[|s| - 1])
  }

  /** The program's loop over the mutable dictionary of positions. */
  method BuildAverageCostPositions(events: seq<EventData>) returns (r: Option<Positions>)
    ensures r == BuildPositions(events)
  {
    var positions: Positions := map[];
    for n := 0 to |events|
      invariant BuildPositions(events[..n]) == Some(positions)
    {
      var event := events[n];
      ghost var before := positions;
      assert events[..n + 1][..n] == events[..n];
      assert BuildPositions(events[..n + 1]) == ApplyEvent(before, event);
      if !Counts(event) {
        continue;
      }
      var key := PositionKeyOf(event);
      if key !in positions {
        positions := positions[key := NO_POSITION];
      }
      var position := positions[key];
      var bucket := if event.currency in position.buckets then position.buckets[event.currency] else EMPTY_BUCKET;
      if event.eventType.MarketBuy? {
        bucket := Bucket(bucket.quantity + event.quantity.value,
                         bucket.totalCost + AcquisitionCost(event), bucket.realisedGain);
        position := Position(position.quantity + event.quantity.value, position.buckets[event.currency := bucket]);
      } else {
        var sold := ApplyToBucket(bucket, event);
        if sold.None? {
          RaisedStaysRaised(events, n + 1);
          return None;
        }
        position := Position(position.quantity - event.quantity.value, position.buckets[event.currency := sold.value]);
      }
      positions := positions[key := position];
      assert positions == before[key := position];
    }
    assert events[..|events|] == events;
    return Some(positions);
  }

  lemma {:induction false} RaisedStaysRaised(s: seq<EventData>, n: nat)
    requires n <= |s|
    requires BuildPositions(s[..n]).None?
    ensures BuildPositions(s).None?
    decreases |s|
  {
    if n == |s| {
      assert s[..n] == s;
    } else {
      assert s[..|s| - 1][..n] == s[..n];
      RaisedStaysRaised(s[..|s| - 1], n);
    }
  }

  // ---------------------------------------------------------------- one bucket on its own

  function OfRawKey(r: RawKey): EventData -> bool {
    (d: EventData) => Counts(d) && RawKeyOf(d) == r
  }

  function OfPosition(k: PositionKey): EventData -> bool {
    (d: EventData) => Counts(d) && PositionKeyOf(d) == k
  }

  ghost predicate AllCount(s: seq<EventData>) {
    forall i :: 0 <= i < |s| ==> Counts(s[i])
  }

  /** The trades of one bucket folded alone; nothing when a sell is not covered. */
  ghost function BucketFold(s: seq<EventData>): Option<Bucket>
    requires AllCount(s)
  {
    if |s| == 0 then Some(EMPTY_BUCKET)
    else match BucketFold(s[..|s| - 1])
      case None => None
      case Some(b) => ApplyToBucket(b, s[|s| - 1])
  }

  ghost function NetQuantity(s: seq<EventData>): real
    requires AllCount(s)
  {
    if |s| == 0 then 0.0 else NetQuantity(s[..|s| - 1]) + SignedQuantity(s[|s| - 1])
  }

  ghost function BucketOf(r: RawKey, s: seq<EventData>): Option<Bucket> {
    KeepAll(OfRawKey(r), s);
    BucketFold(Keep(OfRawKey(r), s))
  }

  ghost function QuantityOf(k: PositionKey, s: seq<EventData>): real {
    KeepAll(OfPosition(k), s);
    NetQuantity(Keep(OfPosition(k), s))
  }

  lemma {:induction false} BucketOfExtended(r: RawKey, s: seq<EventData>, d: EventData)
    ensures BucketOf(r, s + [d])
         == if OfRawKey(r)(d) && BucketOf(r, s).Some? then ApplyToBucket(BucketOf(r, s).value, d) else BucketOf(r, s)
  {
    KeepAppend(OfRawKey(r), s, [d]);
    KeepOne(OfRawKey(r), d);
    var t := Keep(OfRawKey(r), s);
    assert t + [] == t;
    assert (t + [d])[..|t|] == t;
  }

  lemma {:induction false} QuantityOfExtended(k: PositionKey, s: seq<EventData>, d: EventData)
    ensures QuantityOf(k, s + [d])
         == QuantityOf(k, s) + if OfPosition(k)(d) then SignedQuantity(d) else 0.0
  {
    KeepAppend(OfPosition(k), s, [d]);
    KeepOne(OfPosition(k), d);
    var t := Keep(OfPosition(k), s);
    assert t + [] == t;
    assert (t + [d])[..|t|] == t;
  }

  /** Every bucket and every position holds what its own trades in `s` give. */
  ghost predicate AmountsAgree(ps: Positions, s: seq<EventData>) {
    && (forall r :: BucketOf(r, s) == Some(BucketIn(ps, r)))
    && (forall k :: QuantityIn(ps, k) == QuantityOf(k, s))
  }

  /** The positions and buckets present are those some trade in `s` mentions. */
  ghost predicate KeysAgree(ps: Positions, s: seq<EventData>) {
    && (forall k :: k in ps <==> Mentions(s, OfPosition(k)))
    && (forall k, c :: k in ps && c in ps[k].buckets <==> Mentions(s, OfRawKey(RawKey(k.ticker, k.isin, c))))
  }

  ghost predicate Mentions(s: seq<EventData>, p: EventData -> bool) {
    exists i :: 0 <= i < |s| && p(s[i])
  }

  lemma {:induction false} MentionsExtended(s: seq<EventData>, d: EventData, p: EventData -> bool)
    ensures Mentions(s + [d], p) <==> Mentions(s, p) || p(d)
  {
    if Mentions(s, p) {
      var i :| 0 <= i < |s| && p(s[i]);
      assert (s + [d])[i] == s[i];
    }
    assert (s + [d])[|s|] == d;
  }

  lemma {:induction false} AmountsStep(ps: Positions, s: seq<EventData>, d: EventData, ps': Positions)
    requires AmountsAgree(ps, s)
    requires ApplyEvent(ps, d) == Some(ps')
    ensures AmountsAgree(ps', s + [d])
  {
    forall r ensures BucketOf(r, s + [d]) == Some(BucketIn(ps', r)) {
      BucketOfExtended(r, s, d);
      assert BucketOf(r, s) == Some(BucketIn(ps, r));
    }
    forall k ensures QuantityIn(ps', k) == QuantityOf(k, s + [d]) {
      QuantityOfExtended(k, s, d);
      assert QuantityIn(ps, k) == QuantityOf(k, s);
    }
  }

  lemma {:induction false} PositionsStep(ps: Positions, s: seq<EventData>, d: EventData, ps': Positions, k: PositionKey)
    requires KeysAgree(ps, s) && ApplyEvent(ps, d) == Some(ps')
    ensures k in ps' <==> Mentions(s + [d], OfPosition(k))
  {
    MentionsExtended(s, d, OfPosition(k));
  }

  lemma {:induction false} BucketsStep(ps: Positions, s: seq<EventData>, d: EventData, ps': Positions, k: PositionKey,
                                       c: string)
    requires KeysAgree(ps, s) && ApplyEvent(ps, d) == Some(ps')
    ensures k in ps' && c in ps'[k].buckets <==> Mentions(s + [d], OfRawKey(RawKey(k.ticker, k.isin, c)))
  {
    MentionsExtended(s, d, OfRawKey(RawKey(k.ticker, k.isin, c)));
    assert k in ps && c in ps[k].buckets <==> Mentions(s, OfRawKey(RawKey(k.ticker, k.isin, c)));
  }

  lemma {:induction false} KeysStep(ps: Positions, s: seq<EventData>, d: EventData, ps': Positions)
    requires KeysAgree(ps, s) && ApplyEvent(ps, d) == Some(ps')
    ensures KeysAgree(ps', s + [d])
  {
    forall k ensures k in ps' <==> Mentions(s + [d], OfPosition(k)) {
      PositionsStep(ps, s, d, ps', k);
    }
    forall k, c ensures k in ps' && c in ps'[k].buckets <==> Mentions(s + [d], OfRawKey(RawKey(k.ticker, k.isin, c))) {
      BucketsStep(ps, s, d, ps', k, c);
    }
  }

  /** The interleaved fold raises exactly when some bucket's own trades, taken alone, are not covered;
      otherwise every bucket and every position holds what its own trades give. */
  lemma {:induction false} InterleavedEqualsIndependent(s: seq<EventData>)
    ensures BuildPositions(s).None? <==> exists r :: BucketOf(r, s).None?
    ensures BuildPositions(s).Some? ==>
      AmountsAgree(BuildPositions(s).value, s) && KeysAgree(BuildPositions(s).value, s)
  {
    if |s| > 0 {
      var init, d := s[..|s| - 1], s[|s| - 1];
      assert s == init + [d];
      InterleavedEqualsIndependent(init);
      if BuildPositions(init).None? {
        var r :| BucketOf(r, init).None?;
        BucketOfExtended(r, init, d);
      } else {
        var ps := BuildPositions(init).value;
        if BuildPositions(s).Some? {
          AmountsStep(ps, init, d, BuildPositions(s).value);
          KeysStep(ps, init, d, BuildPositions(s).value);
        } else {
          BucketOfExtended(RawKeyOf(d), init, d);
        }
      }
    }
  }

  // ---------------------------------------------------------------- arithmetic of one bucket

  ghost function Proceeds(s: seq<EventData>): real {
    if |s| == 0 then 0.0
    else Proceeds(s[..|s| - 1]) + if s[|s| - 1].eventType.MarketSell? then NetProceeds(s[|s| - 1]) else 0.0
  }

  ghost function Costs(s: seq<EventData>): real {
    if |s| == 0 then 0.0
    else Costs(s[..|s| - 1]) + if s[|s| - 1].eventType.MarketBuy? then AcquisitionCost(s[|s| - 1]) else 0.0
  }

  lemma {:induction false} AllocationOfWhole(cost: real, q: real)
    requires q > 0.0
    ensures cost / q * q == cost
  {
  }

  /** Conservation: money realised minus money still tied up is money received minus money paid. */
  lemma {:induction false} GainPlusProceedsIsConserved(s: seq<EventData>)
    requires AllCount(s) && BucketFold(s).Some?
    ensures BucketFold(s).value.realisedGain - BucketFold(s).value.totalCost == Proceeds(s) - Costs(s)
    ensures BucketFold(s).value.quantity >= 0.0
    ensures BucketFold(s).value.quantity == 0.0 ==> BucketFold(s).value.totalCost == 0.0
  {
    if |s| > 0 {
      var init, d := s[..|s| - 1], s[|s| - 1];
      GainPlusProceedsIsConserved(init);
      var b := BucketFold(init).value;
      if d.eventType.MarketSell? {
        AllocationOfWhole(b.totalCost, b.quantity);
      }
    }
  }

  /** The open lots after a trade that leaves the bucket as `b`: a buy adds its unit acquisition cost,
      a sell that empties the bucket clears them. */
  ghost function LotsAfter(lots: seq<real>, d: EventData, b: Bucket): seq<real>
    requires Counts(d)
  {
    if d.eventType.MarketBuy? then lots + [AcquisitionCost(d) / d.quantity.value]
    else if b.quantity == 0.0 then []
    else lots
  }

  /** Unit acquisition costs of the buys since the bucket was last empty. */
  ghost function OpenLots(s: seq<EventData>): seq<real>
    requires AllCount(s) && BucketFold(s).Some?
  {
    if |s| == 0 then [] else LotsAfter(OpenLots(s[..|s| - 1]), s[|s| - 1], BucketFold(s).value)
  }

  ghost function Lowest(s: seq<real>): real
    requires |s| > 0
  {
    if |s| == 1 then s[0]
    else if s[|s| - 1] < Lowest(s[..|s| - 1]) then s[|s| - 1] else Lowest(s[..|s| - 1])
  }

  ghost function Highest(s: seq<real>): real
    requires |s| > 0
  {
    if |s| == 1 then s[0]
    else if s[|s| - 1] > Highest(s[..|s| - 1]) then s[|s| - 1] else Highest(s[..|s| - 1])
  }

  ghost predicate WithinLots(b: Bucket, lots: seq<real>) {
    && b.quantity >= 0.0
    && (b.quantity == 0.0 <==> lots == [])
    && (b.quantity == 0.0 ==> b.totalCost == 0.0)
    && (b.quantity > 0.0 ==> Lowest(lots) * b.quantity <= b.totalCost <= Highest(lots) * b.quantity)
  }

  /** A lower bound stays one when a lot at `unit` apiece joins, and so, read upside down, does an upper bound. */
  lemma {:induction false} WidenedBound(bound: real, tighter: real, unit: real, cost: real, held: real, q: real)
    requires held > 0.0 && q > 0.0
    requires tighter <= bound && tighter <= unit
    requires bound * held <= cost
    ensures tighter * (held + q) <= cost + unit * q
  {
    assert tighter * held <= bound * held;
    assert tighter * q <= unit * q;
  }

  lemma {:induction false} OneMoreLot(lots: seq<real>, unit: real)
    ensures Lowest(lots + [unit]) == if lots == [] || unit < Lowest(lots) then unit else Lowest(lots)
    ensures Highest(lots + [unit]) == if lots == [] || unit > Highest(lots) then unit else Highest(lots)
  {
    assert (lots + [unit])[..|lots|] == lots;
  }

  lemma {:induction false} FirstLotIsBounds(b: Bucket, unit: real, q: real)
    requires q > 0.0 && b.quantity == 0.0 && b.totalCost == 0.0
    ensures WithinLots(b.(quantity := b.quantity + q, totalCost := b.totalCost + unit * q), [unit])
  {
  }

  lemma {:induction false} NextLotAboveLowest(lots: seq<real>, unit: real, cost: real, held: real, q: real)
    requires lots != [] && held > 0.0 && q > 0.0 && Lowest(lots) * held <= cost
    ensures Lowest(lots + [unit]) * (held + q) <= cost + unit * q
  {
    OneMoreLot(lots, unit);
    WidenedBound(Lowest(lots), Lowest(lots + [unit]), unit, cost, held, q);
  }

  lemma {:induction false} NextLotBelowHighest(lots: seq<real>, unit: real, cost: real, held: real, q: real)
    requires lots != [] && held > 0.0 && q > 0.0 && cost <= Highest(lots) * held
    ensures cost + unit * q <= Highest(lots + [unit]) * (held + q)
  {
    OneMoreLot(lots, unit);
    WidenedBound(-Highest(lots), -Highest(lots + [unit]), -unit, -cost, held, q);
  }

  lemma {:induction false} NextLotKeepsBounds(b: Bucket, lots: seq<real>, unit: real, q: real)
    requires q > 0.0 && b.quantity > 0.0 && WithinLots(b, lots)
    ensures WithinLots(b.(quantity := b.quantity + q, totalCost := b.totalCost + unit * q), lots + [unit])
  {
    NextLotAboveLowest(lots, unit, b.totalCost, b.quantity, q);
    NextLotBelowHighest(lots, unit, b.totalCost, b.quantity, q);
  }

  lemma {:induction false} BuyStaysWithinLots(b: Bucket, lots: seq<real>, d: EventData)
    requires Counts(d) && d.eventType.MarketBuy? && WithinLots(b, lots)
    ensures WithinLots(ApplyToBucket(b, d).value, LotsAfter(lots, d, ApplyToBucket(b, d).value))
  {
    var q := d.quantity.value;
    AllocationOfWhole(AcquisitionCost(d), q);
    if b.quantity == 0.0 {
      FirstLotIsBounds(b, AcquisitionCost(d) / q, q);
    } else {
      NextLotKeepsBounds(b, lots, AcquisitionCost(d) / q, q);
    }
  }

  lemma {:induction false} SellStaysWithinLots(b: Bucket, lots: seq<real>, d: EventData)
    requires Counts(d) && d.eventType.MarketSell? && WithinLots(b, lots) && ApplyToBucket(b, d).Some?
    ensures WithinLots(ApplyToBucket(b, d).value, LotsAfter(lots, d, ApplyToBucket(b, d).value))
  {
  }

  lemma {:induction false} CostWithinLots(s: seq<EventData>)
    requires AllCount(s) && BucketFold(s).Some?
    ensures WithinLots(BucketFold(s).value, OpenLots(s))
  {
    if |s| > 0 {
      var init, d := s[..|s| - 1], s[|s| - 1];
      CostWithinLots(init);
      if d.eventType.MarketBuy? {
        BuyStaysWithinLots(BucketFold(init).value, OpenLots(init), d);
      } else {
        SellStaysWithinLots(BucketFold(init).value, OpenLots(init), d);
      }
    }
  }

  lemma {:induction false} LotsBoundTheAverage(b: Bucket, lots: seq<real>)
    requires WithinLots(b, lots) && b.quantity > 0.0
    ensures lots != [] && Lowest(lots) <= b.totalCost / b.quantity <= Highest(lots)
  {
  }

  /** While something is held, the average cost lies between the cheapest and the dearest unit cost
      of the buys since the bucket was last empty. */
  lemma {:induction false} AverageWithinOpenLots(s: seq<EventData>)
    requires AllCount(s) && BucketFold(s).Some? && BucketFold(s).value.quantity > 0.0
    ensures OpenLots(s) != []
    ensures Lowest(OpenLots(s)) <= BucketFold(s).value.totalCost / BucketFold(s).value.quantity <= Highest(OpenLots(s))
  {
    CostWithinLots(s);
    LotsBoundTheAverage(BucketFold(s).value, OpenLots(s));
  }

  /** A partial sell leaves the average cost of what remains unchanged. */
  lemma {:induction false} PartialSellKeepsAverage(b: Bucket, d: EventData)
    requires Counts(d) && d.eventType.MarketSell? && d.quantity.value < b.quantity
    ensures ApplyToBucket(b, d).Some?
    ensures var b' := ApplyToBucket(b, d).value;
      b'.quantity == b.quantity - d.quantity.value && b'.totalCost / b'.quantity == b.totalCost / b.quantity
  {
  }

  // ---------------------------------------------------------------- three ways to the same quantity

  ghost function SumQuantities(m: map<string, Bucket>): real {
    if m == map[] then 0.0
    else
      var c :| c in m;
      m[c].quantity + SumQuantities(m - {c})
  }

  lemma {:induction false} SumQuantitiesAt(m: map<string, Bucket>, c: string)
    requires c in m
    ensures SumQuantities(m) == m[c].quantity + SumQuantities(m - {c})
    decreases |m|
  {
    var p :| p in m && SumQuantities(m) == m[p].quantity + SumQuantities(m - {p});
    if p != c {
      SumQuantitiesAt(m - {p}, c);
      SumQuantitiesAt(m - {c}, p);
      assert m - {p} - {c} == m - {c} - {p};
    }
  }

  lemma {:induction false} SumQuantitiesUpdated(m: map<string, Bucket>, c: string, b: Bucket)
    ensures SumQuantities(m[c := b]) == SumQuantities(m) - (if c in m then m[c].quantity else 0.0) + b.quantity
  {
    SumQuantitiesAt(m[c := b], c);
    if c in m {
      SumQuantitiesAt(m, c);
      assert m[c := b] - {c} == m - {c};
    } else {
      assert m[c := b] - {c} == m;
    }
  }

  /** A position's quantity is the sum of its currency buckets' quantities. */
  lemma {:induction false} PositionSumsItsBuckets(s: seq<EventData>, k: PositionKey)
    requires BuildPositions(s).Some? && k in BuildPositions(s).value
    ensures BuildPositions(s).value[k].quantity == SumQuantities(BuildPositions(s).value[k].buckets)
  {
    if |s| > 0 {
      var init, d := s[..|s| - 1], s[|s| - 1];
      var ps := BuildPositions(init).value;
      if k in ps {
        PositionSumsItsBuckets(init, k);
      }
      if Counts(d) && k == PositionKeyOf(d) {
        var position := if k in ps then ps[k] else NO_POSITION;
        var b := ApplyToBucket(BucketIn(ps, RawKeyOf(d)), d).value;
        SumQuantitiesUpdated(position.buckets, d.currency, b);
      }
    }
  }

  function UpTo(date: int): EventData -> bool {
    (d: EventData) => d.date <= date
  }

  ghost predicate HoldsNetAt(holdings: map<PositionKey, real>, s: seq<EventData>, k: PositionKey) {
    && (k in holdings <==> Mentions(s, OfPosition(k)))
    && (if k in holdings then holdings[k] else 0.0) == QuantityOf(k, s)
  }

  /** What the valuation's loop must have accumulated after `s`. */
  ghost predicate HoldsNet(holdings: map<PositionKey, real>, s: seq<EventData>) {
    forall k :: HoldsNetAt(holdings, s, k)
  }

  function NextNet(holdings: map<PositionKey, real>, d: EventData): map<PositionKey, real> {
    if !Counts(d) then holdings
    else
      var k := PositionKeyOf(d);
      holdings[k := (if k in holdings then holdings[k] else 0.0) + SignedQuantity(d)]
  }

  lemma {:induction false} HoldsNetStep(holdings: map<PositionKey, real>, s: seq<EventData>, d: EventData)
    requires HoldsNet(holdings, s)
    ensures HoldsNet(NextNet(holdings, d), s + [d])
  {
    forall k ensures HoldsNetAt(NextNet(holdings, d), s + [d], k) {
      assert HoldsNetAt(holdings, s, k);
      QuantityOfExtended(k, s, d);
      MentionsExtended(s, d, OfPosition(k));
    }
  }

  /** The valuation's own loop: it ignores buckets and never raises. */
  method GetHoldingsOn(date: int, events: seq<EventData>) returns (holdings: map<PositionKey, real>)
    ensures HoldsNet(holdings, Keep(UpTo(date), events))
  {
    holdings := map[];
    var relevant := Keep(UpTo(date), events);
    assert HoldsNet(holdings, relevant[..0]) by {
      assert relevant[..0] == [];
    }
    for n := 0 to |relevant|
      invariant HoldsNet(holdings, relevant[..n])
    {
      var event := relevant[n];
      ghost var before := holdings;
      HoldsNetStep(holdings, relevant[..n], event);
      assert relevant[..n + 1] == relevant[..n] + [event];
      if !Counts(event) {
        continue;
      }
      var key := PositionKeyOf(event);
      if key !in holdings {
        holdings := holdings[key := 0.0];
      }
      if event.eventType.MarketBuy? {
        holdings := holdings[key := holdings[key] + event.quantity.value];
      }
      if event.eventType.MarketSell? {
        holdings := holdings[key := holdings[key] - event.quantity.value];
      }
      assert holdings == NextNet(before, event);
    }
    assert relevant[..|relevant|] == relevant;
  }

  /** For every accepted history and date: the position's quantity, the sum of its buckets' quantities
      and the quantity the valuation computes are one number, for the same instruments. */
  lemma {:induction false} ThreeQuantitiesAgree(events: seq<EventData>, date: int, k: PositionKey)
    requires BuildPositions(Keep(UpTo(date), events)).Some?
    ensures var relevant := Keep(UpTo(date), events);
      var ps := BuildPositions(relevant).value;
      && (k in ps <==> Mentions(relevant, OfPosition(k)))
      && (k in ps ==> ps[k].quantity == SumQuantities(ps[k].buckets) == QuantityOf(k, relevant))
  {
    var relevant := Keep(UpTo(date), events);
    InterleavedEqualsIndependent(relevant);
    var ps := BuildPositions(relevant).value;
    if k in ps {
      PositionSumsItsBuckets(relevant, k);
      assert QuantityIn(ps, k) == QuantityOf(k, relevant);
    }
  }
}
