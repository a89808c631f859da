/** The two ways a missing exchange rate is filled in: row by row with a cache, and in one batch per currency. */
module FxResolution {
  import opened Outcomes
  import opened Ordering
  import opened InvestmentEvents

  datatype Point = Point(date: int, price: real, currency: string)

  /** A fixed series per currency, one point a day; a currency without a series is a provider error. */
  datatype Provider = Provider(series: map<string, seq<Point>>)

  datatype RateSource = SourceCurrency | Pending | Historical(date: int) | OtherSource(text: string)

  datatype FxEvent = FxEvent(id: nat, date: int, currency: string, rate: Option<real>, source: Option<RateSource>)

  const LOOKUP_DAYS := 7
  const BATCH_DAYS := 10
  const UNAVAILABLE: nat := 503

  ghost predicate OnePointPerDay(s: seq<Point>) {
    forall i, j :: 0 <= i < j < |s| ==> s[i].date != s[j].date
  }

  ghost predicate ProviderIsFixed(p: Provider) {
    forall c :: c in p.series ==> OnePointPerDay(p.series[c])
  }

  function InRange(from: int, to: int): Point -> bool {
    (p: Point) => from <= p.date <= to
  }

  predicate IsUsable(p: Point) {
    p.price > 0.0 && Upper(p.currency) == "EUR"
  }

  function UsableUpTo(date: int): Point -> bool {
    (p: Point) => p.date <= date && IsUsable(p)
  }

  function Usable(): Point -> bool {
    (p: Point) => IsUsable(p)
  }

  function ByDay(): Point -> Rank {
    (p: Point) => Rank(p.date, 0)
  }

  function GetHistory(p: Provider, currency: string, from: int, to: int): Option<seq<Point>> {
    if currency in p.series then Some(Keep(InRange(from, to), p.series[currency])) else None
  }

  /** The latest usable point of a series in a range: what both resolvers are meant to pick. */
  ghost predicate IsBest(s: seq<Point>, from: int, to: int, p: Point) {
    && p in s && IsUsable(p) && from <= p.date <= to
    && forall q :: q in s && IsUsable(q) && from <= q.date <= to ==> q.date <= p.date
  }

  lemma {:induction false} BestIsUnique(s: seq<Point>, from: int, to: int, p: Point, q: Point)
    requires OnePointPerDay(s) && IsBest(s, from, to, p) && IsBest(s, from, to, q)
    ensures p == q
  {
  }

  // ---------------------------------------------------------------- one row at a time

  /** The first of the points with the greatest date. */
  function Newest(s: seq<Point>): (p: Point)
    requires |s| > 0
    ensures p in s && forall q :: q in s ==> q.date <= p.date
  {
    if |s| == 1 then s[0]
    else
      var init := Newest(s[..|s| - 1]);
      assert s == s[..|s| - 1] + [s[|s| - 1]];
      if s[|s| - 1].date > init.date then s[|s| - 1] else init
  }

  /** The uncached lookup: the rate and the date it is from. */
  function Lookup(p: Provider, quantize: real -> real, currency: string, date: int): Option<(real, int)> {
    match GetHistory(p, currency, date - LOOKUP_DAYS, date)
    case None => None
    case Some(points) =>
      var eligible := Keep(UsableUpTo(date), points);
      if eligible == [] then None else Some((quantize(Newest(eligible).price), Newest(eligible).date))
  }

  /** The newest eligible point of the lookup's range is the best one. */
  lemma {:induction false} NewestIsBest(s: seq<Point>, from: int, to: int)
    requires Keep(UsableUpTo(to), Keep(InRange(from, to), s)) != []
    ensures IsBest(s, from, to, Newest(Keep(UsableUpTo(to), Keep(InRange(from, to), s))))
  {
    KeepMembers(InRange(from, to), s);
    KeepMembers(UsableUpTo(to), Keep(InRange(from, to), s));
  }

  lemma {:induction false} LookupPicksBest(p: Provider, quantize: real -> real, currency: string, date: int)
    requires Lookup(p, quantize, currency, date).Some?
    ensures currency in p.series
    ensures exists best ::
      && IsBest(p.series[currency], date - LOOKUP_DAYS, date, best)
      && Lookup(p, quantize, currency, date) == Some((quantize(best.price), best.date))
  {
    NewestIsBest(p.series[currency], date - LOOKUP_DAYS, date);
  }

  datatype ImportedRow = ImportedRow(date: int, currency: string, rate: Option<real>, source: Option<RateSource>,
                                     isUnmatchedDeposit: bool)

  function ResolveRow(p: Provider, quantize: real -> real, row: ImportedRow): ImportedRow {
    if Upper(row.currency) == "EUR" then row.(rate := Some(1.0), source := Some(SourceCurrency))
    else if (row.rate.Some? && row.source != Some(Pending)) || row.isUnmatchedDeposit then row
    else
      match Lookup(p, quantize, Upper(row.currency), row.date)
      case None => row
      case Some((rate, date)) => row.(rate := Some(rate), source := Some(Historical(date)))
  }

  type RateCache = map<(string, int), Option<(real, int)>>

  ghost predicate CacheIsRight(cache: RateCache, p: Provider, quantize: real -> real) {
    forall key :: key in cache ==> cache[key] == Lookup(p, quantize, key.0, key.1)
  }

  lemma {:induction false} CacheOneMore(cache: RateCache, p: Provider, quantize: real -> real, currency: string, date: int)
    requires CacheIsRight(cache, p, quantize)
    ensures CacheIsRight(cache[(currency, date) := Lookup(p, quantize, currency, date)], p, quantize)
  {
  }

  class ImportFxResolutionService {
    const provider: Provider
    const quantize: real -> real
    var rateCache: RateCache

    /** Every cached answer is the one the provider would give. */
    ghost predicate Valid()
      reads this
    {
      CacheIsRight(rateCache, provider, quantize)
    }

    constructor (provider: Provider, quantize: real -> real)
      ensures Valid() && this.provider == provider && this.quantize == quantize && rateCache == map[]
    {
      this.provider, this.quantize, rateCache := provider, quantize, map[];
    }

    /** Ask the provider, whatever the cache holds. */
    method FetchRate(currency: string, date: int) returns (r: Option<(real, int)>)
      ensures r == Lookup(provider, quantize, currency, date)
    {
      var points := GetHistory(provider, currency, date - LOOKUP_DAYS, date);
      if points.None? {
        return None;
      }
      var eligible := Keep(UsableUpTo(date), points.value);
      if eligible == [] {
        return None;
      }
      return Some((quantize(Newest(eligible).price), Newest(eligible).date));
    }

    method GetRate(currency: string, date: int) returns (r: Option<(real, int)>)
      requires Valid()
      modifies this
      ensures Valid() && r == Lookup(provider, quantize, currency, date)
      ensures rateCache == old(rateCache)[(currency, date) := r]
    {
      if (currency, date) in rateCache {
        r := rateCache[(currency, date)];
        assert rateCache == rateCache[(currency, date) := r];
        return;
      }
      r := FetchRate(currency, date);
      CacheOneMore(rateCache, provider, quantize, currency, date);
      rateCache := rateCache[(currency, date) := r];
    }

    method ResolveOne(row: ImportedRow) returns (r: ImportedRow)
      requires Valid()
      modifies this
      ensures Valid() && r == ResolveRow(provider, quantize, row)
    {
      r := row;
      if Upper(row.currency) == "EUR" {
        r := row.(rate := Some(1.0), source := Some(SourceCurrency));
      } else if !((row.rate.Some? && row.source != Some(Pending)) || row.isUnmatchedDeposit) {
        var found := GetRate(Upper(row.currency), row.date);
        if found.Some? {
          r := row.(rate := Some(found.value.0), source := Some(Historical(found.value.1)));
        }
      }
    }

    method Resolve(rows: seq<ImportedRow>) returns (resolved: seq<ImportedRow>)
      requires Valid()
      modifies this
      ensures Valid() && |resolved| == |rows|
      ensures forall k :: 0 <= k < |rows| ==> resolved[k] == ResolveRow(provider, quantize, rows[k])
    {
      resolved := [];
      for k := 0 to |rows|
        invariant Valid() && |resolved| == k
        invariant forall i :: 0 <= i < k ==> resolved[i] == ResolveRow(provider, quantize, rows[i])
      {
        var row := ResolveOne(rows[k]);
        resolved := resolved + [row];
      }
    }
  }

  // ---------------------------------------------------------------- a batch

  predicate IsUnresolved(e: FxEvent) {
    e.currency != "EUR" && (e.rate.None? || e.rate.value <= 0.0 || e.source == Some(Pending))
  }

  function Unresolved(): FxEvent -> bool {
    (e: FxEvent) => IsUnresolved(e)
  }

  function OfCurrency(c: string): FxEvent -> bool {
    (e: FxEvent) => Upper(e.currency) == c
  }

  function FirstDate(s: seq<FxEvent>): (d: int)
    requires |s| > 0
    ensures (exists i :: 0 <= i < |s| && s[i].date == d) && forall i :: 0 <= i < |s| ==> d <= s[i].date
  {
    if |s| == 1 then s[0].date
    else
      var d := FirstDate(s[..|s| - 1]);
      assert forall i :: 0 <= i < |s| - 1 ==> s[..|s| - 1][i] == s[i];
      if s[|s| - 1].date < d then s[|s| - 1].date else d
  }

  function LastDate(s: seq<FxEvent>): (d: int)
    requires |s| > 0
    ensures (exists i :: 0 <= i < |s| && s[i].date == d) && forall i :: 0 <= i < |s| ==> s[i].date <= d
  {
    if |s| == 1 then s[0].date
    else
      var d := LastDate(s[..|s| - 1]);
      assert forall i :: 0 <= i < |s| - 1 ==> s[..|s| - 1][i] == s[i];
      if s[|s| - 1].date > d then s[|s| - 1].date else d
  }

  /** The usable points of a currency over the span of its pending events, in date order. */
  function RatesFor(p: Provider, pending: seq<FxEvent>, c: string): seq<Point> {
    RatesOver(p, c, Keep(OfCurrency(c), pending))
  }

  function RatesOver(p: Provider, c: string, own: seq<FxEvent>): seq<Point> {
    if own == [] then []
    else
      match GetHistory(p, c, FirstDate(own) - BATCH_DAYS, LastDate(own))
      case None => []
      case Some(points) => SortBy(ByDay(), Keep(Usable(), points))
  }

  /** The table holds every pending currency's rates. */
  ghost predicate RatesAreLoaded(rates: map<string, seq<Point>>, p: Provider, pending: seq<FxEvent>, first: nat) {
    && (forall k :: 0 <= k < first && k < |pending| ==> Upper(pending[k].currency) in rates)
    && (forall c :: c in rates ==> IsLoaded(rates, p, pending, c))
  }

  ghost predicate IsLoaded(rates: map<string, seq<Point>>, p: Provider, pending: seq<FxEvent>, c: string)
    requires c in rates
  {
    rates[c] == RatesFor(p, pending, c)
  }

  lemma {:induction false} LoadOneMore(rates: map<string, seq<Point>>, p: Provider, pending: seq<FxEvent>, k: nat)
    requires RatesAreLoaded(rates, p, pending, k) && k < |pending|
    ensures var c := Upper(pending[k].currency);
      && (c in rates ==> RatesAreLoaded(rates, p, pending, k + 1))
      && RatesAreLoaded(rates[c := RatesFor(p, pending, c)], p, pending, k + 1)
  {
    var c := Upper(pending[k].currency);
    var rates' := rates[c := RatesFor(p, pending, c)];
    forall d | d in rates' ensures IsLoaded(rates', p, pending, d) {
      if d != c { assert IsLoaded(rates, p, pending, d); }
    }
    forall i | 0 <= i < k + 1 ensures Upper(pending[i].currency) in rates' {
      if i == k { assert Upper(pending[i].currency) == c; }
    }
  }

  lemma {:induction false} TableChoice(rates: map<string, seq<Point>>, p: Provider, events: seq<FxEvent>, e: FxEvent)
    requires RatesAreLoaded(rates, p, Keep(Unresolved(), events), |Keep(Unresolved(), events)|)
    requires e in events && IsUnresolved(e)
    ensures Upper(e.currency) in rates
    ensures LastOf(DatedBy(e.date), rates[Upper(e.currency)]) == Chosen(p, Keep(Unresolved(), events), e)
  {
    KeepMembers(Unresolved(), events);
    assert e in Keep(Unresolved(), events);
    assert IsLoaded(rates, p, Keep(Unresolved(), events), Upper(e.currency));
  }

  function DatedBy(date: int): Point -> bool {
    (p: Point) => p.date <= date
  }

  /** The last point on or before the event's date. */
  function Chosen(p: Provider, pending: seq<FxEvent>, e: FxEvent): Option<Point> {
    LastOf(DatedBy(e.date), RatesFor(p, pending, Upper(e.currency)))
  }

  function ResolveEvent(p: Provider, quantize: real -> real, pending: seq<FxEvent>, e: FxEvent): FxEvent {
    match Chosen(p, pending, e)
    case None => e
    case Some(point) => e.(rate := Some(quantize(point.price)), source := Some(Historical(point.date)))
  }

  function Repaired(p: Provider, quantize: real -> real, pending: seq<FxEvent>): FxEvent -> FxEvent {
    (e: FxEvent) => if IsUnresolved(e) then ResolveEvent(p, quantize, pending, e) else e
  }

  function ResolveStep(p: Provider, quantize: real -> real, events: seq<FxEvent>): seq<FxEvent> {
    Project(Repaired(p, quantize, Keep(Unresolved(), events)), events)
  }

  function Resolvable(p: Provider, pending: seq<FxEvent>): FxEvent -> bool {
    (e: FxEvent) => IsUnresolved(e) && Chosen(p, pending, e).Some?
  }

  class PendingFxResolutionService {
    var events: seq<FxEvent>
    const provider: Option<Provider>
    const quantize: real -> real

    constructor (events: seq<FxEvent>, provider: Option<Provider>, quantize: real -> real)
      ensures this.events == events && this.provider == provider && this.quantize == quantize
    {
      this.events, this.provider, this.quantize := events, provider, quantize;
    }

    /** One provider call per currency with a pending event. */
    method LoadRates(pending: seq<FxEvent>, p: Provider) returns (rates: map<string, seq<Point>>)
      ensures RatesAreLoaded(rates, p, pending, |pending|)
    {
      rates := map[];
      for k := 0 to |pending|
        invariant RatesAreLoaded(rates, p, pending, k)
      {
        var c := Upper(pending[k].currency);
        LoadOneMore(rates, p, pending, k);
        if c !in rates {
          rates := rates[c := RatesOver(p, c, Keep(OfCurrency(c), pending))];
        }
      }
    }

    /** The event with its chosen rate written, if it is pending and has one. */
    method WithRate(p: Provider, ghost all: seq<FxEvent>, rates: map<string, seq<Point>>, e: FxEvent)
      returns (next: FxEvent, hit: bool)
      requires RatesAreLoaded(rates, p, Keep(Unresolved(), all), |Keep(Unresolved(), all)|) && e in all
      ensures next == Repaired(p, quantize, Keep(Unresolved(), all))(e)
      ensures hit == Resolvable(p, Keep(Unresolved(), all))(e)
    {
      next, hit := e, false;
      if IsUnresolved(e) {
        TableChoice(rates, p, all, e);
        var candidate := LastOf(DatedBy(e.date), rates[Upper(e.currency)]);
        if candidate.Some? {
          next := e.(rate := Some(quantize(candidate.value.price)), source := Some(Historical(candidate.value.date)));
          hit := true;
        }
      }
    }

    /** Write the chosen rate to every pending event that has one, and count them. */
    method ApplyRates(p: Provider, rates: map<string, seq<Point>>) returns (applied: nat)
      requires RatesAreLoaded(rates, p, Keep(Unresolved(), events), |Keep(Unresolved(), events)|)
      modifies this
      ensures events == ResolveStep(p, quantize, old(events))
      ensures applied == |Keep(Resolvable(p, Keep(Unresolved(), old(events))), old(events))|
    {
      ghost var was := events;
      ghost var pending := Keep(Unresolved(), was);
      applied := 0;
      for k := 0 to |events|
        invariant HalfDone(events, applied, was, Repaired(p, quantize, pending), Resolvable(p, pending), k)
      {
        var next, hit := WithRate(p, was, rates, events[k]);
        DoOneMore(events, applied, was, Repaired(p, quantize, pending), Resolvable(p, pending), k);
        events := events[k := next];
        applied := applied + if hit then 1 else 0;
      }
      AllDone(events, applied, was, Repaired(p, quantize, pending), Resolvable(p, pending));
    }

    method Resolve() returns (r: Result<nat>)
      modifies this
      ensures Keep(Unresolved(), old(events)) == [] ==> r == Ok(0) && events == old(events)
      ensures Keep(Unresolved(), old(events)) != [] && provider.None? ==> r == Refused(UNAVAILABLE) && events == old(events)
      ensures Keep(Unresolved(), old(events)) != [] && provider.Some? ==>
        && events == ResolveStep(provider.value, quantize, old(events))
        && r == Ok(|Keep(Resolvable(provider.value, Keep(Unresolved(), old(events))), old(events))|)
    {
      var pending := Keep(Unresolved(), events);
      if pending == [] {
        return Ok(0);
      }
      if provider.None? {
        return Refused(UNAVAILABLE);
      }
      var rates := LoadRates(pending, provider.value);
      var applied := ApplyRates(provider.value, rates);
      return Ok(applied);
    }
  }

  /** The first `k` events have been rewritten by `f`, and `applied` of them were hits. */
  ghost predicate HalfDone(events: seq<FxEvent>, applied: nat, was: seq<FxEvent>, f: FxEvent -> FxEvent,
                           hits: FxEvent -> bool, k: nat) {
    k <= |was| == |events| && applied == |Keep(hits, was[..k])|
    && forall i :: 0 <= i < |was| ==> events[i] == if i < k then f(was[i]) else was[i]
  }

  lemma {:induction false} DoOneMore(events: seq<FxEvent>, applied: nat, was: seq<FxEvent>, f: FxEvent -> FxEvent,
                                     hits: FxEvent -> bool, k: nat)
    requires HalfDone(events, applied, was, f, hits, k) && k < |was|
    ensures events[k] == was[k]
    ensures HalfDone(events[k := f(was[k])], applied + (if hits(was[k]) then 1 else 0), was, f, hits, k + 1)
  {
    assert was[..k + 1][..k] == was[..k];
  }

  lemma {:induction false} AllDone(events: seq<FxEvent>, applied: nat, was: seq<FxEvent>, f: FxEvent -> FxEvent,
                                   hits: FxEvent -> bool)
    requires HalfDone(events, applied, was, f, hits, |was|)
    ensures events == Project(f, was) && applied == |Keep(hits, was)|
  {
    assert was[..|was|] == was;
  }

  // ---------------------------------------------------------------- what the batch picks

  function FromOf(pending: seq<FxEvent>, c: string): int {
    var own := Keep(OfCurrency(c), pending);
    if own == [] then 0 else FirstDate(own) - BATCH_DAYS
  }

  /** The span reaches back ten days before the currency's earliest pending event and covers each event's date. */
  lemma {:induction false} SpanCovers(pending: seq<FxEvent>, e: FxEvent)
    requires e in pending
    ensures var own := Keep(OfCurrency(Upper(e.currency)), pending);
      && own != [] && FromOf(pending, Upper(e.currency)) + BATCH_DAYS <= e.date <= LastDate(own)
  {
    var own := Keep(OfCurrency(Upper(e.currency)), pending);
    KeepMembers(OfCurrency(Upper(e.currency)), pending);
    assert e in own;
  }

  ghost predicate HoldsUsable(rates: seq<Point>, s: seq<Point>, from: int, to: int) {
    Ordered(ByDay(), rates) && forall q :: q in rates <==> q in s && IsUsable(q) && from <= q.date <= to
  }

  lemma {:induction false} SortedUsable(s: seq<Point>, from: int, to: int)
    ensures HoldsUsable(SortBy(ByDay(), Keep(Usable(), Keep(InRange(from, to), s))), s, from, to)
  {
    var points := Keep(InRange(from, to), s);
    var kept := Keep(Usable(), points);
    KeepMembers(InRange(from, to), s);
    KeepMembers(Usable(), points);
    SortSorts(ByDay(), kept);
    var rates := SortBy(ByDay(), kept);
    forall q ensures q in rates <==> q in s && IsUsable(q) && from <= q.date <= to {
      assert q in rates <==> q in multiset(rates);
      assert q in kept <==> q in multiset(kept);
    }
  }

  lemma {:induction false} LastIsBest(rates: seq<Point>, s: seq<Point>, from: int, to: int, date: int)
    requires HoldsUsable(rates, s, from, to) && date <= to
    ensures LastOf(DatedBy(date), rates).Some? ==> IsBest(s, from, date, LastOf(DatedBy(date), rates).value)
    ensures LastOf(DatedBy(date), rates).None? ==> forall q :: q in s && IsUsable(q) && q.date <= date ==> q.date < from
  {
    LastOfMembers(DatedBy(date), rates);
    if LastOf(DatedBy(date), rates).Some? {
      LastOfIsGreatest(ByDay(), DatedBy(date), rates);
      forall q | q in s && IsUsable(q) && from <= q.date <= date
        ensures q.date <= LastOf(DatedBy(date), rates).value.date
      {
        assert q in rates && DatedBy(date)(q);
      }
    } else {
      forall q | q in s && IsUsable(q) && q.date <= date ensures q.date < from {
        assert q in rates ==> !DatedBy(date)(q);
      }
    }
  }

  lemma {:induction false} RatesAreUsable(p: Provider, pending: seq<FxEvent>, c: string)
    requires c in p.series && Keep(OfCurrency(c), pending) != []
    ensures HoldsUsable(RatesFor(p, pending, c), p.series[c], FromOf(pending, c), LastDate(Keep(OfCurrency(c), pending)))
  {
    SortedUsable(p.series[c], FromOf(pending, c), LastDate(Keep(OfCurrency(c), pending)));
  }

  /** The batch resolves an event exactly when the series has a usable point in reach, and picks the latest. */
  lemma {:induction false} BatchPicksBest(p: Provider, pending: seq<FxEvent>, e: FxEvent)
    requires e in pending
    ensures Chosen(p, pending, e).Some? ==>
      && Upper(e.currency) in p.series
      && IsBest(p.series[Upper(e.currency)], FromOf(pending, Upper(e.currency)), e.date, Chosen(p, pending, e).value)
    ensures Chosen(p, pending, e).None? && Upper(e.currency) in p.series ==>
      forall q :: q in p.series[Upper(e.currency)] && IsUsable(q) && q.date <= e.date ==>
        q.date < FromOf(pending, Upper(e.currency))
  {
    var c := Upper(e.currency);
    SpanCovers(pending, e);
    if c in p.series {
      var from, to := FromOf(pending, c), LastDate(Keep(OfCurrency(c), pending));
      RatesAreUsable(p, pending, c);
      LastIsBest(RatesFor(p, pending, c), p.series[c], from, to, e.date);
    }
  }

  /** Whenever the row-by-row lookup finds a rate, the batch gives the event the same rate and source. */
  lemma {:induction false} BatchAgreesWithLookup(p: Provider, quantize: real -> real, pending: seq<FxEvent>, e: FxEvent)
    requires ProviderIsFixed(p) && e in pending && Lookup(p, quantize, Upper(e.currency), e.date).Some?
    ensures var (rate, date) := Lookup(p, quantize, Upper(e.currency), e.date).value;
      ResolveEvent(p, quantize, pending, e) == e.(rate := Some(rate), source := Some(Historical(date)))
  {
    var c := Upper(e.currency);
    LookupPicksBest(p, quantize, c, e.date);
    var best :| IsBest(p.series[c], e.date - LOOKUP_DAYS, e.date, best)
      && Lookup(p, quantize, c, e.date) == Some((quantize(best.price), best.date));
    SpanCovers(pending, e);
    BatchPicksBest(p, pending, e);
    var chosen := Chosen(p, pending, e).value;
    assert OnePointPerDay(p.series[c]);
    assert IsBest(p.series[c], e.date - LOOKUP_DAYS, e.date, chosen);
    BestIsUnique(p.series[c], e.date - LOOKUP_DAYS, e.date, best, chosen);
  }

  /** In a currency, whatever is earlier than an event left pending is left pending too. */
  lemma {:induction false} PendingIsDownwardClosed(p: Provider, pending: seq<FxEvent>, e: FxEvent, earlier: FxEvent)
    requires e in pending && earlier in pending && Upper(earlier.currency) == Upper(e.currency) && earlier.date <= e.date
    requires Chosen(p, pending, e).None?
    ensures Chosen(p, pending, earlier).None?
  {
    BatchPicksBest(p, pending, e);
    BatchPicksBest(p, pending, earlier);
  }

  // ---------------------------------------------------------------- resolving twice

  lemma {:induction false} StillPendingWasPending(p: Provider, quantize: real -> real, events: seq<FxEvent>, e': FxEvent)
    requires e' in Keep(Unresolved(), ResolveStep(p, quantize, events))
    ensures exists e :: e in Keep(Unresolved(), events) && e' == ResolveEvent(p, quantize, Keep(Unresolved(), events), e)
  {
    var pending := Keep(Unresolved(), events);
    KeepMembers(Unresolved(), ResolveStep(p, quantize, events));
    KeepMembers(Unresolved(), events);
    var k :| 0 <= k < |events| && ResolveStep(p, quantize, events)[k] == e';
    assert events[k] in events && e' == Repaired(p, quantize, pending)(events[k]);
    assert IsUnresolved(events[k]);
    assert events[k] in pending;
  }

  /** Every event still pending lies in the span of the first batch. */
  lemma {:induction false} StillInSpan(p: Provider, quantize: real -> real, events: seq<FxEvent>, e': FxEvent)
    requires e' in Keep(Unresolved(), ResolveStep(p, quantize, events))
    ensures FromOf(Keep(Unresolved(), events), Upper(e'.currency)) + BATCH_DAYS <= e'.date
  {
    var pending := Keep(Unresolved(), events);
    StillPendingWasPending(p, quantize, events, e');
    var e :| e in pending && e' == ResolveEvent(p, quantize, pending, e);
    SpanCovers(pending, e);
  }

  /** The second batch spans no more than the first. */
  lemma {:induction false} SpanShrinks(p: Provider, quantize: real -> real, events: seq<FxEvent>, e': FxEvent)
    requires e' in Keep(Unresolved(), ResolveStep(p, quantize, events))
    ensures FromOf(Keep(Unresolved(), events), Upper(e'.currency))
         <= FromOf(Keep(Unresolved(), ResolveStep(p, quantize, events)), Upper(e'.currency))
  {
    var pending' := Keep(Unresolved(), ResolveStep(p, quantize, events));
    SpanCovers(pending', e');
    var first := EarliestOf(pending', Upper(e'.currency));
    StillInSpan(p, quantize, events, first);
  }

  lemma {:induction false} EarliestOf(pending: seq<FxEvent>, c: string) returns (e: FxEvent)
    requires Keep(OfCurrency(c), pending) != []
    ensures e in pending && Upper(e.currency) == c && FromOf(pending, c) + BATCH_DAYS == e.date
  {
    var own := Keep(OfCurrency(c), pending);
    KeepMembers(OfCurrency(c), pending);
    var i :| 0 <= i < |own| && own[i].date == FirstDate(own);
    e := own[i];
    assert e in own;
  }

  /** Resolving again leaves a still-pending event as it is. */
  lemma {:induction false} SecondTimeChangesNothing(p: Provider, quantize: real -> real, events: seq<FxEvent>, e': FxEvent)
    requires ProviderIsFixed(p) && e' in Keep(Unresolved(), ResolveStep(p, quantize, events))
    ensures ResolveEvent(p, quantize, Keep(Unresolved(), ResolveStep(p, quantize, events)), e') == e'
  {
    var pending, pending' := Keep(Unresolved(), events), Keep(Unresolved(), ResolveStep(p, quantize, events));
    var c := Upper(e'.currency);
    StillPendingWasPending(p, quantize, events, e');
    var e :| e in pending && e' == ResolveEvent(p, quantize, pending, e);
    SpanShrinks(p, quantize, events, e');
    BatchPicksBest(p, pending, e);
    BatchPicksBest(p, pending', e');
    if Chosen(p, pending', e').Some? {
      var again := Chosen(p, pending', e').value;
      var first := Chosen(p, pending, e).value;
      assert OnePointPerDay(p.series[c]);
      assert IsBest(p.series[c], FromOf(pending', c), e.date, first);
      BestIsUnique(p.series[c], FromOf(pending', c), e.date, again, first);
    }
  }

  /** Resolving twice is resolving once, however rates are rounded. */
  lemma {:induction false} ResolveIsIdempotent(p: Provider, quantize: real -> real, events: seq<FxEvent>)
    requires ProviderIsFixed(p)
    ensures ResolveStep(p, quantize, ResolveStep(p, quantize, events)) == ResolveStep(p, quantize, events)
  {
    var once := ResolveStep(p, quantize, events);
    KeepMembers(Unresolved(), once);
    forall k | 0 <= k < |once| ensures ResolveStep(p, quantize, once)[k] == once[k] {
      assert once[k] in once;
      if IsUnresolved(once[k]) { SecondTimeChangesNothing(p, quantize, events, once[k]); }
    }
  }
}
