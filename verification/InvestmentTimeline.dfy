/** The check that a buy or sell leaves no historical sell uncovered. */
module InvestmentTimeline {
  import opened Outcomes
  import opened Ordering
  import opened InvestmentEvents

  /** An event under validation; a new one has no id yet. */
  datatype Candidate = Candidate(id: Option<nat>, data: EventData)

  /** Sort position of a candidate that has no id yet. */
  const NEW_EVENT_RANK: nat := 1_000_000_000_000_000_000

  predicate CandidateIsValid(d: EventData) {
    IsMarket(d) ==>
      && d.quantity.Some? && d.quantity.value > 0.0
      && d.price.Some? && d.price.value > 0.0
      && HasIdentity(RawKeyOf(d))
  }

  function ByDate(): Candidate -> Rank {
    (c: Candidate) => Rank(c.data.date, c.id.GetOr(NEW_EVENT_RANK))
  }

  function NotTheEvent(replaced: Option<Event>): Event -> bool {
    (e: Event) => replaced.Some? ==> e.id != replaced.value.id
  }

  function FromEvent(): Event -> Candidate {
    (e: Event) => Candidate(Some(e.id), e.data)
  }

  function CandidateData(): Candidate -> EventData {
    (c: Candidate) => c.data
  }

  function DataOf(s: seq<Candidate>): seq<EventData> {
    Project(CandidateData(), s)
  }

  function InKeys(keys: set<MarketKey>): Candidate -> bool {
    (c: Candidate) => MarketKeyOf(c.data) in keys
  }

  function TradesOf(k: MarketKey): EventData -> bool {
    (d: EventData) => IsMarket(d) && MarketKeyOf(d) == k
  }

  function AffectedKeys(candidate: Candidate, replaced: Option<Event>): set<MarketKey> {
    (if replaced.Some? && IsMarket(replaced.value.data) then {MarketKeyOf(replaced.value.data)} else {})
    + (if IsMarket(candidate.data) then {MarketKeyOf(candidate.data)} else {})
  }

  /** The whole history as it would read after the change, whatever the instrument. */
  function Timeline(candidate: Candidate, existing: seq<Event>, replaced: Option<Event>): seq<Candidate> {
    SortBy(ByDate(), Others(replaced, existing) + Tail(candidate))
  }

  /** Units held after one more trade; nothing when the sell is not covered. */
  function HoldingAfter(held: real, d: EventData): Option<real> {
    match d.quantity
    case None => Some(held)
    case Some(q) =>
      match d.eventType
      case MarketBuy => Some(held + q)
      case MarketSell => if q > held then None else Some(held - q)
      case NonMarket(_) => Some(held)
  }

  /** Units held after the trades, from nothing; nothing when some sell was not covered. */
  function Holding(s: seq<EventData>): Option<real> {
    if |s| == 0 then Some(0.0)
    else match Holding(s[..|s| - 1])
      case None => None
      case Some(h) => HoldingAfter(h, s[|s| - 1])
  }

  /** The independent check of one key: its own trades alone, in order. */
  function HoldingOf(k: MarketKey, s: seq<EventData>): Option<real> {
    Holding(Keep(TradesOf(k), s))
  }

  lemma {:induction false} UncoveredStaysUncovered(a: seq<EventData>, b: seq<EventData>)
    requires Holding(a).None?
    ensures Holding(a + b).None?
  {
    if |b| == 0 {
      assert a + b == a;
    } else {
      UncoveredStaysUncovered(a, b[..|b| - 1]);
      assert (a + b)[..|a + b| - 1] == a + b[..|b| - 1];
    }
  }

  /** Dropping the trades of unaffected keys before sorting changes no affected key's history. */
  lemma {:induction false} FilteredTimelineAgrees(k: MarketKey, keys: set<MarketKey>, rest: seq<Candidate>, tail: seq<Candidate>)
    requires k in keys
    ensures HoldingOf(k, DataOf(SortBy(ByDate(), Keep(InKeys(keys), rest) + tail)))
         == HoldingOf(k, DataOf(SortBy(ByDate(), rest + tail)))
  {
    var p, kept := Through(TradesOf(k), CandidateData()), Keep(InKeys(keys), rest);
    KeepProject(TradesOf(k), CandidateData(), SortBy(ByDate(), kept + tail));
    KeepProject(TradesOf(k), CandidateData(), SortBy(ByDate(), rest + tail));
    KeepSort(ByDate(), p, kept + tail);
    KeepSort(ByDate(), p, rest + tail);
    KeepAppend(p, kept, tail);
    KeepAppend(p, rest, tail);
    KeepTwice(p, InKeys(keys), p, rest);
  }

  lemma {:induction false} HoldingOfExtended(k: MarketKey, s: seq<EventData>, d: EventData)
    ensures HoldingOf(k, s + [d])
         == if TradesOf(k)(d) && HoldingOf(k, s).Some? then HoldingAfter(HoldingOf(k, s).value, d) else HoldingOf(k, s)
  {
    KeepAppend(TradesOf(k), s, [d]);
    KeepOne(TradesOf(k), d);
    var t := Keep(TradesOf(k), s);
    if TradesOf(k)(d) {
      assert (t + [d])[..|t + [d]| - 1] == t;
    } else {
      assert t + [] == t;
    }
  }

  lemma {:induction false} UncoveredPrefix(k: MarketKey, s: seq<EventData>, n: nat)
    requires n <= |s|
    requires HoldingOf(k, s[..n]).None?
    ensures HoldingOf(k, s).None?
  {
    assert s == s[..n] + s[n..];
    KeepAppend(TradesOf(k), s[..n], s[n..]);
    UncoveredStaysUncovered(Keep(TradesOf(k), s[..n]), Keep(TradesOf(k), s[n..]));
  }

  function Others(replaced: Option<Event>, existing: seq<Event>): seq<Candidate> {
    Project(FromEvent(), Keep(NotTheEvent(replaced), existing))
  }

  lemma {:induction false} OthersExtended(replaced: Option<Event>, s: seq<Event>, e: Event)
    ensures Others(replaced, s + [e]) == Others(replaced, s) + if NotTheEvent(replaced)(e) then [FromEvent()(e)] else []
  {
  }

  /** The first loop: the stored events of the affected keys, without the event being replaced. */
  method SelectEntries(keys: set<MarketKey>, existing: seq<Event>, replaced: Option<Event>)
    returns (entries: seq<Candidate>)
    ensures entries == Keep(InKeys(keys), Others(replaced, existing))
  {
    entries := [];
    for n := 0 to |existing|
      invariant entries == Keep(InKeys(keys), Others(replaced, existing[..n]))
    {
      var event := existing[n];
      ghost var others := Others(replaced, existing[..n]);
      OthersExtended(replaced, existing[..n], event);
      assert existing[..n + 1] == existing[..n] + [event];
      if replaced.Some? && event.id == replaced.value.id {
        assert others + [] == others;
        continue;
      }
      var entry := FromEvent()(event);
      KeepAppend(InKeys(keys), others, [entry]);
      KeepOne(InKeys(keys), entry);
      if MarketKeyOf(entry.data) in keys {
        entries := entries + [entry];
      }
    }
    assert existing[..|existing|] == existing;
  }

  function HeldOf(holdings: map<MarketKey, real>, k: MarketKey): real {
    if k in holdings then holdings[k] else 0.0
  }

  ghost predicate Tracks(holdings: map<MarketKey, real>, trades: seq<EventData>) {
    forall k :: HoldingOf(k, trades) == Some(HeldOf(holdings, k))
  }

  /** Running holdings after one more trade that they cover. */
  function NextHoldings(holdings: map<MarketKey, real>, d: EventData): map<MarketKey, real>
    requires IsMarket(d) ==> HoldingAfter(HeldOf(holdings, MarketKeyOf(d)), d).Some?
  {
    if !IsMarket(d) || d.quantity.None? then holdings
    else holdings[MarketKeyOf(d) := HoldingAfter(HeldOf(holdings, MarketKeyOf(d)), d).value]
  }

  lemma {:induction false} TracksStep(holdings: map<MarketKey, real>, trades: seq<EventData>, d: EventData)
    requires Tracks(holdings, trades)
    requires IsMarket(d) ==> HoldingAfter(HeldOf(holdings, MarketKeyOf(d)), d).Some?
    ensures Tracks(NextHoldings(holdings, d), trades + [d])
  {
    forall k ensures HoldingOf(k, trades + [d]) == Some(HeldOf(NextHoldings(holdings, d), k)) {
      assert HoldingOf(k, trades) == Some(HeldOf(holdings, k));
      HoldingOfExtended(k, trades, d);
    }
  }

  lemma {:induction false} UncoveredTrade(holdings: map<MarketKey, real>, trades: seq<EventData>, n: nat)
    requires n < |trades| && Tracks(holdings, trades[..n]) && IsMarket(trades[n])
    requires HoldingAfter(HeldOf(holdings, MarketKeyOf(trades[n])), trades[n]).None?
    ensures HoldingOf(MarketKeyOf(trades[n]), trades).None?
  {
    var k := MarketKeyOf(trades[n]);
    assert HoldingOf(k, trades[..n]) == Some(HeldOf(holdings, k));
    HoldingOfExtended(k, trades[..n], trades[n]);
    assert trades[..n + 1] == trades[..n] + [trades[n]];
    UncoveredPrefix(k, trades, n + 1);
  }

  /** No key, taken alone over the whole history, ever sells more than it holds. */
  ghost predicate NeverOversold(s: seq<EventData>) {
    forall k :: HoldingOf(k, s).Some?
  }

  /** Some trade's own key, taken alone, sells more than it holds. */
  ghost predicate OversoldByItsKey(s: seq<EventData>) {
    exists n :: 0 <= n < |s| && HoldingOf(MarketKeyOf(s[n]), s).None?
  }

  lemma {:induction false} TracksToTheEnd(holdings: map<MarketKey, real>, trades: seq<EventData>)
    requires Tracks(holdings, trades[..|trades|])
    ensures NeverOversold(trades)
  {
    assert trades[..|trades|] == trades;
  }

  /** The second loop: one pass with a running holding per key stops at the first uncovered sell. */
  method ScanHoldings(trades: seq<EventData>) returns (covered: bool)
    ensures if covered then NeverOversold(trades) else OversoldByItsKey(trades)
  {
    var holdings: map<MarketKey, real> := map[];
    for n := 0 to |trades|
      invariant Tracks(holdings, trades[..n])
    {
      var d := trades[n];
      assert trades[..n + 1] == trades[..n] + [d];
      if !IsMarket(d) || d.quantity.None? {
        TracksStep(holdings, trades[..n], d);
        continue;
      }
      var quantity := d.quantity.value;
      var key := MarketKeyOf(d);
      var current := if key in holdings then holdings[key] else 0.0;
      if d.eventType.MarketSell? && quantity > current {
        UncoveredTrade(holdings, trades, n);
        return false;
      }
      TracksStep(holdings, trades[..n], d);
      if d.eventType.MarketBuy? {
        holdings := holdings[key := current + quantity];
      } else {
        holdings := holdings[key := current - quantity];
      }
    }
    TracksToTheEnd(holdings, trades);
    return true;
  }

  function Tail(candidate: Candidate): seq<Candidate> {
    if IsMarket(candidate.data) then [candidate] else []
  }

  /** What is validated: the affected keys' events and the candidate, in date order. */
  function Entries(candidate: Candidate, existing: seq<Event>, replaced: Option<Event>): seq<Candidate> {
    SortBy(ByDate(), Keep(InKeys(AffectedKeys(candidate, replaced)), Others(replaced, existing)) + Tail(candidate))
  }

  lemma {:induction false} EntriesAreAffected(candidate: Candidate, existing: seq<Event>, replaced: Option<Event>, entry: Candidate)
    requires entry in Entries(candidate, existing, replaced)
    ensures MarketKeyOf(entry.data) in AffectedKeys(candidate, replaced)
  {
    var keys := AffectedKeys(candidate, replaced);
    var unsorted := Keep(InKeys(keys), Others(replaced, existing)) + Tail(candidate);
    SortSorts(ByDate(), unsorted);
    assert entry in multiset(SortBy(ByDate(), unsorted));
    assert entry in unsorted;
    KeepMembers(InKeys(keys), Others(replaced, existing));
  }

  lemma {:induction false} EntriesDecide(candidate: Candidate, existing: seq<Event>, replaced: Option<Event>, k: MarketKey)
    requires k in AffectedKeys(candidate, replaced)
    ensures HoldingOf(k, DataOf(Entries(candidate, existing, replaced)))
         == HoldingOf(k, DataOf(Timeline(candidate, existing, replaced)))
  {
    FilteredTimelineAgrees(k, AffectedKeys(candidate, replaced), Others(replaced, existing), Tail(candidate));
  }

  /** Every key the change touches, taken alone in the full timeline, covers all its sells. */
  predicate TimelineCovers(candidate: Candidate, existing: seq<Event>, replaced: Option<Event>) {
    forall k | k in AffectedKeys(candidate, replaced) ::
      HoldingOf(k, DataOf(Timeline(candidate, existing, replaced))).Some?
  }

  /** One interleaved pass over the affected keys decides exactly the independent per-key checks. */
  method ValidateMarketSellTimeline(candidate: Candidate, existing: seq<Event>, replaced: Option<Event>)
    returns (accepted: bool)
    ensures accepted <==> TimelineCovers(candidate, existing, replaced)
  {
    var keys := AffectedKeys(candidate, replaced);
    if keys == {} {
      return true;
    }
    var entries := SelectEntries(keys, existing, replaced);
    if IsMarket(candidate.data) {
      entries := entries + [candidate];
    }
    assert entries == Keep(InKeys(keys), Others(replaced, existing)) + Tail(candidate);
    entries := SortBy(ByDate(), entries);
    accepted := ScanHoldings(DataOf(entries));
    if accepted {
      forall k | k in keys ensures HoldingOf(k, DataOf(Timeline(candidate, existing, replaced))).Some? {
        EntriesDecide(candidate, existing, replaced, k);
      }
    } else {
      var n :| 0 <= n < |DataOf(entries)| && HoldingOf(MarketKeyOf(DataOf(entries)[n]), DataOf(entries)).None?;
      EntriesAreAffected(candidate, existing, replaced, entries[n]);
      EntriesDecide(candidate, existing, replaced, MarketKeyOf(entries[n].data));
    }
  }
}
