/** The stored ledger of investment events and the two steps that change it. */
module InvestmentLedger {
  import opened Outcomes
  import opened Ordering
  import opened InvestmentEvents
  import opened InvestmentTimeline
  import opened CostBasis

  /** The table in (date, id) order, and the next primary key. */
  datatype Ledger = Ledger(events: seq<Event>, nextId: nat)

  const EMPTY_LEDGER := Ledger([], 1)
  const LAST_ID: nat := 0x7FFF_FFFF

  datatype EventPatch = EventPatch(
    date: Change<int>,
    eventType: Change<EventType>,
    ticker: Change<Option<string>>,
    isin: Change<Option<string>>,
    quantity: Change<Option<real>>,
    price: Change<Option<real>>,
    amount: Change<real>,
    fees: Change<Option<real>>,
    taxes: Change<Option<real>>,
    currency: Change<string>)

  function Merge(d: EventData, p: EventPatch): EventData {
    EventData(p.date.Over(d.date), p.eventType.Over(d.eventType), p.ticker.Over(d.ticker), p.isin.Over(d.isin),
              p.quantity.Over(d.quantity), p.price.Over(d.price), p.amount.Over(d.amount), p.fees.Over(d.fees),
              p.taxes.Over(d.taxes), p.currency.Over(d.currency))
  }

  predicate SchemaAccepts(d: EventData) {
    d.amount > 0.0 && |d.currency| == 3
  }

  predicate SchemaAcceptsPatch(p: EventPatch) {
    (p.amount.Set? ==> p.amount.value > 0.0) && (p.currency.Set? ==> |p.currency.value| == 3)
  }

  function StoredOrder(): Event -> Rank {
    (e: Event) => Rank(e.data.date, e.id)
  }

  function EventDataOf(): Event -> EventData {
    (e: Event) => e.data
  }

  function History(s: seq<Event>): seq<EventData> {
    Project(EventDataOf(), s)
  }

  function HasId(id: nat): Event -> bool {
    (e: Event) => e.id == id
  }

  /** Create an event; `linksAccepted` is the verdict of the transaction-link validation. */
  function CreateStep(l: Ledger, d: EventData, linksAccepted: bool): Result<Ledger> {
    if !SchemaAccepts(d) then Refused(UNPROCESSABLE)
    else if !linksAccepted || !CandidateIsValid(d) then Refused(BAD_REQUEST)
    else if !TimelineCovers(Candidate(None, d), l.events, None) then Refused(BAD_REQUEST)
    else if l.nextId > LAST_ID then Refused(ABORTED)
    else Ok(Ledger(InsertBy(StoredOrder(), Event(l.nextId, d), l.events), l.nextId + 1))
  }

  function UpdateStep(l: Ledger, id: nat, p: EventPatch, linksAccepted: bool): Result<Ledger> {
    if !SchemaAcceptsPatch(p) then Refused(UNPROCESSABLE)
    else if Keep(HasId(id), l.events) == [] then Refused(NOT_FOUND)
    else
      var event := Keep(HasId(id), l.events)[0];
      var d := Merge(event.data, p);
      if !linksAccepted || !CandidateIsValid(d) then Refused(BAD_REQUEST)
      else if !TimelineCovers(Candidate(Some(event.id), d), l.events, Some(event)) then Refused(BAD_REQUEST)
      else Ok(l.(events := InsertBy(StoredOrder(), Event(event.id, d), Keep(NotTheEvent(Some(event)), l.events))))
  }

  /** The service over its table: each call either applies one step in full or changes nothing. */
  class InvestmentEventService {
    var events: seq<Event>
    var nextId: nat

    function State(): Ledger
      reads this
    {
      Ledger(events, nextId)
    }

    constructor ()
      ensures State() == EMPTY_LEDGER
    {
      events, nextId := [], 1;
    }

    method CreateEvent(d: EventData, linksAccepted: bool) returns (r: Result<nat>)
      modifies this
      ensures match CreateStep(old(State()), d, linksAccepted)
        case Ok(l) => State() == l && r == Ok(old(nextId))
        case Refused(status) => State() == old(State()) && r == Refused(status)
    {
      if !SchemaAccepts(d) {
        return Refused(UNPROCESSABLE);
      }
      var candidate := Candidate(None, d);
      if !linksAccepted || !CandidateIsValid(d) {
        return Refused(BAD_REQUEST);
      }
      var covered := ValidateMarketSellTimeline(candidate, events, None);
      if !covered {
        return Refused(BAD_REQUEST);
      }
      if nextId > LAST_ID {
        return Refused(ABORTED);
      }
      events := InsertBy(StoredOrder(), Event(nextId, d), events);
      r := Ok(nextId);
      nextId := nextId + 1;
    }

    method UpdateEvent(id: nat, p: EventPatch, linksAccepted: bool) returns (r: Result<nat>)
      modifies this
      ensures match UpdateStep(old(State()), id, p, linksAccepted)
        case Ok(l) => State() == l && r == Ok(id)
        case Refused(status) => State() == old(State()) && r == Refused(status)
    {
      if !SchemaAcceptsPatch(p) {
        return Refused(UNPROCESSABLE);
      }
      var found := Keep(HasId(id), events);
      if found == [] {
        return Refused(NOT_FOUND);
      }
      var event := found[0];
      KeepAll(HasId(id), events);
      var d := Merge(event.data, p);
      if !linksAccepted || !CandidateIsValid(d) {
        return Refused(BAD_REQUEST);
      }
      var covered := ValidateMarketSellTimeline(Candidate(Some(event.id), d), events, Some(event));
      if !covered {
        return Refused(BAD_REQUEST);
      }
      events := InsertBy(StoredOrder(), Event(event.id, d), Keep(NotTheEvent(Some(event)), events));
      r := Ok(id);
    }
  }

  // ---------------------------------------------------------------- runs

  datatype Op =
    | Create(data: EventData, linksAccepted: bool)
    | Update(id: nat, patch: EventPatch, linksAccepted: bool)

  function Step(l: Ledger, op: Op): Ledger {
    var r := match op
      case Create(d, linksAccepted) => CreateStep(l, d, linksAccepted)
      case Update(id, p, linksAccepted) => UpdateStep(l, id, p, linksAccepted);
    if r.Ok? then r.value else l
  }

  /** The ledger after a run of requests from the empty one; refused requests change nothing. */
  function Run(ops: seq<Op>): Ledger {
    if |ops| == 0 then EMPTY_LEDGER else Step(Run(ops[..|ops| - 1]), ops[|ops| - 1])
  }

  ghost predicate Tidy(l: Ledger) {
    && Ordered(StoredOrder(), l.events)
    && (forall i, j :: 0 <= i < j < |l.events| ==> l.events[i].id != l.events[j].id)
    && (forall i :: 0 <= i < |l.events| ==>
          l.events[i].id < l.nextId && SchemaAccepts(l.events[i].data) && CandidateIsValid(l.events[i].data))
    && l.nextId <= LAST_ID + 1
  }

  lemma {:induction false} SameSlot(c: Candidate, e: Event, rest: seq<Event>)
    requires forall i :: 0 <= i < |rest| ==>
      (Before(ByDate()(c), ByDate()(FromEvent()(rest[i]))) <==> Before(StoredOrder()(e), StoredOrder()(rest[i])))
    ensures Slot(ByDate(), c, Project(FromEvent(), rest)) == Slot(StoredOrder(), e, rest)
  {
    if |rest| > 0 && !Before(StoredOrder()(e), StoredOrder()(rest[0])) {
      assert Project(FromEvent(), rest)[1..] == Project(FromEvent(), rest[1..]);
      assert forall i :: 0 <= i < |rest[1..]| ==> rest[1..][i] == rest[i + 1];
      SameSlot(c, e, rest[1..]);
    }
  }

  lemma {:induction false} CandidatesAreOrdered(rest: seq<Event>)
    requires Ordered(StoredOrder(), rest)
    ensures Ordered(ByDate(), Project(FromEvent(), rest))
  {
  }

  lemma {:induction false} SortedTimeline(c: Candidate, rest: seq<Event>)
    requires Ordered(StoredOrder(), rest)
    ensures SortBy(ByDate(), Project(FromEvent(), rest) + [c]) == InsertBy(ByDate(), c, Project(FromEvent(), rest))
  {
    var x := Project(FromEvent(), rest);
    assert (x + [c])[..|x|] == x;
    CandidatesAreOrdered(rest);
    SortOfOrdered(ByDate(), x);
  }

  /** The candidate ranks among the stored events exactly as the row it becomes. */
  ghost predicate RanksAlike(c: Candidate, e: Event, rest: seq<Event>) {
    && c.data == e.data
    && (forall i :: 0 <= i < |rest| ==> rest[i].id < NEW_EVENT_RANK)
    && (c.id == Some(e.id) || (c.id == None && forall i :: 0 <= i < |rest| ==> rest[i].id < e.id))
  }

  lemma {:induction false} SameInsertion(c: Candidate, e: Event, rest: seq<Event>)
    requires c.data == e.data && Slot(ByDate(), c, Project(FromEvent(), rest)) == Slot(StoredOrder(), e, rest)
    ensures DataOf(InsertBy(ByDate(), c, Project(FromEvent(), rest))) == History(InsertBy(StoredOrder(), e, rest))
  {
  }

  /** The validated timeline of a market candidate reads exactly as the stored ledger will. */
  lemma {:induction false} TimelineIsNextHistory(c: Candidate, e: Event, rest: seq<Event>)
    requires Ordered(StoredOrder(), rest) && RanksAlike(c, e, rest)
    ensures DataOf(SortBy(ByDate(), Project(FromEvent(), rest) + [c])) == History(InsertBy(StoredOrder(), e, rest))
  {
    SortedTimeline(c, rest);
    SameSlot(c, e, rest);
    SameInsertion(c, e, rest);
  }

  lemma {:induction false} UntouchedKey(k: MarketKey, e: Event, rest: seq<Event>)
    requires !TradesOf(k)(e.data)
    ensures HoldingOf(k, History(InsertBy(StoredOrder(), e, rest))) == HoldingOf(k, History(rest))
  {
    var n, p := Slot(StoredOrder(), e, rest), TradesOf(k);
    var a, b := History(rest[..n]), History(rest[n..]);
    assert History(InsertBy(StoredOrder(), e, rest)) == a + [e.data] + b;
    assert History(rest) == a + b;
    KeepAppend(p, a, b);
    KeepAppend(p, a + [e.data], b);
    KeepAppend(p, a, [e.data]);
    KeepOne(p, e.data);
    assert Keep(p, a) + [] == Keep(p, a);
  }

  lemma {:induction false} RemovalUnseen(k: MarketKey, s: seq<Event>, gone: Event)
    requires !TradesOf(k)(gone.data)
    requires forall i :: 0 <= i < |s| && s[i].id == gone.id ==> s[i] == gone
    ensures HoldingOf(k, History(Keep(NotTheEvent(Some(gone)), s))) == HoldingOf(k, History(s))
  {
    var p, q := Through(TradesOf(k), EventDataOf()), NotTheEvent(Some(gone));
    KeepProject(TradesOf(k), EventDataOf(), Keep(q, s));
    KeepProject(TradesOf(k), EventDataOf(), s);
    KeepTwice(p, q, p, s);
  }

  /** The step both operations share: the local check on the affected keys keeps every key covered. */
  lemma {:induction false} ReplacementKeepsCover(s: seq<Event>, replaced: Option<Event>, c: Candidate, e: Event)
    requires Ordered(StoredOrder(), s) && NeverOversold(History(s))
    requires RanksAlike(c, e, s)
    requires replaced.Some? ==> forall i :: 0 <= i < |s| && s[i].id == replaced.value.id ==> s[i] == replaced.value
    requires TimelineCovers(c, s, replaced)
    ensures NeverOversold(History(InsertBy(StoredOrder(), e, Keep(NotTheEvent(replaced), s))))
  {
    var rest := Keep(NotTheEvent(replaced), s);
    KeepOrder(StoredOrder(), NotTheEvent(replaced), s);
    KeepMembers(NotTheEvent(replaced), s);
    forall i | 0 <= i < |rest| ensures rest[i] in s { assert rest[i] in rest; }
    var s' := InsertBy(StoredOrder(), e, rest);
    forall k ensures HoldingOf(k, History(s')).Some? {
      if TradesOf(k)(e.data) {
        TimelineIsNextHistory(c, e, rest);
        assert k in AffectedKeys(c, replaced);
      } else {
        UntouchedKey(k, e, rest);
        if replaced.Some? && TradesOf(k)(replaced.value.data) {
          assert k in AffectedKeys(c, replaced);
          TimelineWithout(k, c, e, s, replaced);
        } else if replaced.Some? {
          RemovalUnseen(k, s, replaced.value);
        } else {
          KeepEverything(NotTheEvent(replaced), s);
        }
      }
    }
  }

  /** A key only the replaced event traded: the validated timeline holds just the other events. */
  lemma {:induction false} TimelineWithout(k: MarketKey, c: Candidate, e: Event, s: seq<Event>, replaced: Option<Event>)
    requires Ordered(StoredOrder(), s) && RanksAlike(c, e, s)
    requires !TradesOf(k)(e.data)
    ensures HoldingOf(k, DataOf(Timeline(c, s, replaced))) == HoldingOf(k, History(Keep(NotTheEvent(replaced), s)))
  {
    var rest := Keep(NotTheEvent(replaced), s);
    KeepOrder(StoredOrder(), NotTheEvent(replaced), s);
    KeepMembers(NotTheEvent(replaced), s);
    forall i | 0 <= i < |rest| ensures rest[i] in s { assert rest[i] in rest; }
    TimelineIsNextHistory(c, e, rest);
    UntouchedKey(k, e, rest);
    if !IsMarket(c.data) {
      var x := Project(FromEvent(), rest);
      CandidatesAreOrdered(rest);
      SortOfOrdered(ByDate(), x);
      assert x + [] == x;
      assert DataOf(x) == History(rest);
    }
  }

  lemma {:induction false} InsertedAt(e: Event, rest: seq<Event>, i: nat)
    requires i <= |rest|
    ensures var s, n := InsertBy(StoredOrder(), e, rest), Slot(StoredOrder(), e, rest);
      |s| == |rest| + 1 && s[i] == if i < n then rest[i] else if i == n then e else rest[i - 1]
  {
  }

  lemma {:induction false} InsertKeepsTidy(l: Ledger, rest: seq<Event>, e: Event, nextId: nat)
    requires Tidy(l.(events := rest))
    requires l.nextId <= nextId <= LAST_ID + 1 && e.id < nextId
    requires forall i :: 0 <= i < |rest| ==> rest[i].id != e.id
    requires SchemaAccepts(e.data) && CandidateIsValid(e.data)
    ensures Tidy(Ledger(InsertBy(StoredOrder(), e, rest), nextId))
  {
    InsertKeepsOrder(StoredOrder(), e, rest);
    var s := InsertBy(StoredOrder(), e, rest);
    InsertedAt(e, rest, 0);
    forall i | 0 <= i < |s| ensures s[i].id < nextId && SchemaAccepts(s[i].data) && CandidateIsValid(s[i].data) {
      InsertedAt(e, rest, i);
    }
    forall i, j | 0 <= i < j < |s| ensures s[i].id != s[j].id {
      InsertedAt(e, rest, i);
      InsertedAt(e, rest, j);
    }
  }

  lemma {:induction false} KeepDistinct(p: Event -> bool, s: seq<Event>)
    requires forall i, j :: 0 <= i < j < |s| ==> s[i].id != s[j].id
    ensures forall i, j :: 0 <= i < j < |Keep(p, s)| ==> Keep(p, s)[i].id != Keep(p, s)[j].id
  {
    if |s| > 0 {
      var init := s[..|s| - 1];
      KeepDistinct(p, init);
      KeepMembers(p, init);
      forall i | 0 <= i < |Keep(p, init)| ensures Keep(p, init)[i].id != s[|s| - 1].id {
        assert Keep(p, init)[i] in init;
      }
    }
  }

  lemma {:induction false} CreateKeepsCover(l: Ledger, d: EventData, linksAccepted: bool)
    requires Tidy(l) && NeverOversold(History(l.events))
    requires CreateStep(l, d, linksAccepted).Ok?
    ensures var l' := CreateStep(l, d, linksAccepted).value; Tidy(l') && NeverOversold(History(l'.events))
  {
    var e := Event(l.nextId, d);
    KeepEverything(NotTheEvent(None), l.events);
    ReplacementKeepsCover(l.events, None, Candidate(None, d), e);
    InsertKeepsTidy(l, l.events, e, l.nextId + 1);
  }

  lemma {:induction false} FoundEvent(l: Ledger, id: nat)
    requires Tidy(l) && Keep(HasId(id), l.events) != []
    ensures var e := Keep(HasId(id), l.events)[0];
      e in l.events && e.id == id && forall i :: 0 <= i < |l.events| && l.events[i].id == id ==> l.events[i] == e
  {
    KeepAll(HasId(id), l.events);
    KeepMembers(HasId(id), l.events);
    assert Keep(HasId(id), l.events)[0] in Keep(HasId(id), l.events);
  }

  lemma {:induction false} RemovalKeepsTidy(l: Ledger, gone: Option<Event>)
    requires Tidy(l)
    ensures Tidy(l.(events := Keep(NotTheEvent(gone), l.events)))
  {
    var rest := Keep(NotTheEvent(gone), l.events);
    KeepOrder(StoredOrder(), NotTheEvent(gone), l.events);
    KeepDistinct(NotTheEvent(gone), l.events);
    KeepMembers(NotTheEvent(gone), l.events);
    forall i | 0 <= i < |rest| ensures rest[i] in l.events { assert rest[i] in rest; }
  }

  lemma {:induction false} UpdateKeepsCover(l: Ledger, id: nat, p: EventPatch, linksAccepted: bool)
    requires Tidy(l) && NeverOversold(History(l.events))
    requires UpdateStep(l, id, p, linksAccepted).Ok?
    ensures var l' := UpdateStep(l, id, p, linksAccepted).value; Tidy(l') && NeverOversold(History(l'.events))
  {
    FoundEvent(l, id);
    var gone := Keep(HasId(id), l.events)[0];
    var e := Event(gone.id, Merge(gone.data, p));
    ReplacementKeepsCover(l.events, Some(gone), Candidate(Some(gone.id), e.data), e);
    RemovalKeepsTidy(l, Some(gone));
    KeepAll(NotTheEvent(Some(gone)), l.events);
    InsertKeepsTidy(l, Keep(NotTheEvent(Some(gone)), l.events), e, l.nextId);
  }

  /** Every step re-checks only the affected keys, yet keeps the whole ledger tidy and covered. */
  lemma {:induction false} StepKeepsCover(l: Ledger, op: Op)
    requires Tidy(l) && NeverOversold(History(l.events))
    ensures Tidy(Step(l, op)) && NeverOversold(History(Step(l, op).events))
  {
    match op
    case Create(d, linksAccepted) =>
      if CreateStep(l, d, linksAccepted).Ok? { CreateKeepsCover(l, d, linksAccepted); }
    case Update(id, p, linksAccepted) =>
      if UpdateStep(l, id, p, linksAccepted).Ok? { UpdateKeepsCover(l, id, p, linksAccepted); }
  }

  /** Over every run: the whole ledger is ordered, validated and covered key by key. */
  lemma {:induction false} EveryRunIsCovered(ops: seq<Op>)
    ensures Tidy(Run(ops)) && NeverOversold(History(Run(ops).events))
  {
    if |ops| == 0 {
      assert History([]) == [];
    } else {
      EveryRunIsCovered(ops[..|ops| - 1]);
      StepKeepsCover(Run(ops[..|ops| - 1]), ops[|ops| - 1]);
    }
  }

  // ---------------------------------------------------------------- what the fold makes of it

  function UpToDate(date: int): Event -> bool {
    (e: Event) => e.data.date <= date
  }

  /** A cut-off date selects a prefix of the (date, id)-ordered table. */
  lemma {:induction false} CutOffIsPrefix(s: seq<Event>, date: int) returns (n: nat)
    requires Ordered(StoredOrder(), s)
    ensures n <= |s| && Keep(UpToDate(date), s) == s[..n]
  {
    if |s| == 0 {
      n := 0;
    } else if s[|s| - 1].data.date <= date {
      n := |s|;
      forall i | 0 <= i < |s| ensures UpToDate(date)(s[i]) {
        assert i < |s| - 1 ==> !Before(StoredOrder()(s[|s| - 1]), StoredOrder()(s[i]));
      }
      KeepEverything(UpToDate(date), s);
    } else {
      n := CutOffIsPrefix(s[..|s| - 1], date);
      assert s[..|s| - 1][..n] == s[..n];
    }
  }

  /** Trades that the validator puts under one key were stored under one key. */
  ghost predicate KeysAreFaithful(s: seq<EventData>) {
    forall i, j :: 0 <= i < |s| && 0 <= j < |s| && IsMarket(s[i]) && IsMarket(s[j]) ==>
      (MarketKeyOf(s[i]) == MarketKeyOf(s[j]) ==> RawKeyOf(s[i]) == RawKeyOf(s[j]))
  }

  /** One bucket of the fold sees the same trades as the validator's key, so it is covered too. */
  lemma {:induction false} BucketMirrorsKey(r: RawKey, s: seq<EventData>)
    requires forall i :: 0 <= i < |s| ==> CandidateIsValid(s[i])
    requires forall i :: 0 <= i < |s| && IsMarket(s[i]) && MarketKeyOf(s[i]) == Normalise(r) ==> RawKeyOf(s[i]) == r
    ensures BucketOf(r, s).Some? <==> HoldingOf(Normalise(r), s).Some?
    ensures BucketOf(r, s).Some? ==> BucketOf(r, s).value.quantity == HoldingOf(Normalise(r), s).value
    ensures BucketOf(r, s).Some? ==> BucketOf(r, s).value.quantity >= 0.0
  {
    if |s| > 0 {
      var init, d := s[..|s| - 1], s[|s| - 1];
      assert s == init + [d];
      BucketMirrorsKey(r, init);
      BucketOfExtended(r, init, d);
      HoldingOfExtended(Normalise(r), init, d);
    }
  }

  lemma {:induction false} UnusedBucket(r: RawKey, s: seq<EventData>)
    requires !Mentions(s, OfRawKey(r))
    ensures BucketOf(r, s) == Some(EMPTY_BUCKET)
  {
    if |s| > 0 {
      var init, d := s[..|s| - 1], s[|s| - 1];
      assert s == init + [d];
      MentionsExtended(init, d, OfRawKey(r));
      UnusedBucket(r, init);
      BucketOfExtended(r, init, d);
    }
  }

  lemma {:induction false} CoverSurvivesCut(s: seq<EventData>, n: nat)
    requires n <= |s| && NeverOversold(s)
    ensures NeverOversold(s[..n])
  {
    forall k ensures HoldingOf(k, s[..n]).Some? {
      if HoldingOf(k, s[..n]).None? {
        UncoveredPrefix(k, s, n);
      }
    }
  }

  lemma {:induction false} CoveredHistoryFolds(s: seq<EventData>)
    requires forall i :: 0 <= i < |s| ==> CandidateIsValid(s[i])
    requires KeysAreFaithful(s) && NeverOversold(s)
    ensures BuildPositions(s).Some?
  {
    forall r ensures BucketOf(r, s).Some? {
      if Mentions(s, OfRawKey(r)) {
        var i :| 0 <= i < |s| && OfRawKey(r)(s[i]);
        BucketMirrorsKey(r, s);
      } else {
        UnusedBucket(r, s);
      }
    }
    InterleavedEqualsIndependent(s);
  }

  /** The history a valuation on `date` folds. */
  ghost function HistoryOn(l: Ledger, date: int): seq<EventData> {
    History(Keep(UpToDate(date), l.events))
  }

  /** Over every run and at every cut-off date the fold succeeds, as long as the stored keys agree
      with the validator's. */
  lemma {:induction false} EveryRunFolds(ops: seq<Op>, date: int)
    requires KeysAreFaithful(History(Run(ops).events))
    ensures BuildPositions(HistoryOn(Run(ops), date)).Some?
    ensures BuildPositions(History(Run(ops).events)).Some?
  {
    var l := Run(ops);
    EveryRunIsCovered(ops);
    CoveredHistoryFolds(History(l.events));
    var n := CutOffIsPrefix(l.events, date);
    assert History(l.events[..n]) == History(l.events)[..n];
    CoverSurvivesCut(History(l.events), n);
    CoveredHistoryFolds(History(l.events)[..n]);
  }

  // ---------------------------------------------------------------- exactly when that is enough

  /** A stored key that a buy or sell can carry. */
  predicate Storable(r: RawKey) {
    HasIdentity(r) && |r.currency| == 3
  }

  ghost predicate TradesOnlyIn(keys: set<RawKey>, s: seq<EventData>) {
    forall i :: 0 <= i < |s| && IsMarket(s[i]) ==> RawKeyOf(s[i]) in keys
  }

  ghost predicate FoldNeverRaises(keys: set<RawKey>) {
    forall ops, date :: TradesOnlyIn(keys, History(Run(ops).events)) ==> BuildPositions(HistoryOn(Run(ops), date)).Some?
  }

  ghost predicate NormaliseIsInjectiveOn(keys: set<RawKey>) {
    forall r, r' :: r in keys && r' in keys && Normalise(r) == Normalise(r') ==> r == r'
  }

  function Trade(t: EventType, r: RawKey): EventData {
    EventData(0, t, r.ticker, r.isin, Some(1.0), Some(1.0), 1.0, None, None, r.currency)
  }

  /** A buy under one stored key, then a sell under another that normalises to it. */
  function BuyThenSell(r: RawKey, r': RawKey): seq<Op> {
    [Create(Trade(MarketBuy, r), true), Create(Trade(MarketSell, r'), true)]
  }

  lemma {:induction false} HoldingOfOne(k: MarketKey, d: EventData)
    ensures HoldingOf(k, [d]) == if TradesOf(k)(d) then HoldingAfter(0.0, d) else Some(0.0)
  {
    HoldingOfExtended(k, [], d);
    assert [] + [d] == [d];
  }

  lemma {:induction false} FirstBuyIsAccepted(r: RawKey)
    requires Storable(r)
    ensures Run([Create(Trade(MarketBuy, r), true)]) == Ledger([Event(1, Trade(MarketBuy, r))], 2)
  {
    var d := Trade(MarketBuy, r);
    var c, e := Candidate(None, d), Event(1, d);
    assert [Create(d, true)][..0] == [];
    TimelineIsNextHistory(c, e, []);
    assert Others(None, []) == [] && InsertBy(StoredOrder(), e, []) == [e];
    assert History([e]) == [d];
    HoldingOfOne(MarketKeyOf(d), d);
    assert TimelineCovers(c, [], None);
  }

  lemma {:induction false} SoldOut(k: MarketKey, buy: EventData, sell: EventData)
    requires TradesOf(k)(buy) && buy.eventType.MarketBuy? && buy.quantity == Some(1.0)
    requires TradesOf(k)(sell) && sell.eventType.MarketSell? && sell.quantity == Some(1.0)
    ensures HoldingOf(k, [buy, sell]) == Some(0.0)
  {
    HoldingOfOne(k, buy);
    HoldingOfExtended(k, [buy], sell);
    assert [buy] + [sell] == [buy, sell];
  }

  lemma {:induction false} SellComesSecond(r: RawKey, r': RawKey)
    ensures InsertBy(StoredOrder(), Event(2, Trade(MarketSell, r')), [Event(1, Trade(MarketBuy, r))])
         == [Event(1, Trade(MarketBuy, r)), Event(2, Trade(MarketSell, r'))]
  {
    assert Slot(StoredOrder(), Event(2, Trade(MarketSell, r')), [Event(1, Trade(MarketBuy, r))]) == 1;
  }

  lemma {:induction false} MismatchedTimeline(r: RawKey, r': RawKey)
    ensures DataOf(Timeline(Candidate(None, Trade(MarketSell, r')), [Event(1, Trade(MarketBuy, r))], None))
         == [Trade(MarketBuy, r), Trade(MarketSell, r')]
  {
    var bought, sold := Event(1, Trade(MarketBuy, r)), Event(2, Trade(MarketSell, r'));
    SellComesSecond(r, r');
    KeepEverything(NotTheEvent(None), [bought]);
    TimelineIsNextHistory(Candidate(None, sold.data), sold, [bought]);
    assert History([bought, sold]) == [bought.data, sold.data];
  }

  lemma {:induction false} MismatchedSellIsCovered(r: RawKey, r': RawKey)
    requires Normalise(r) == Normalise(r')
    ensures TimelineCovers(Candidate(None, Trade(MarketSell, r')), [Event(1, Trade(MarketBuy, r))], None)
  {
    var buy, sell := Trade(MarketBuy, r), Trade(MarketSell, r');
    assert RawKeyOf(buy) == r && RawKeyOf(sell) == r';
    MismatchedTimeline(r, r');
    SoldOut(Normalise(r), buy, sell);
    assert AffectedKeys(Candidate(None, sell), None) == {Normalise(r)};
  }

  lemma {:induction false} MismatchedSellIsAccepted(r: RawKey, r': RawKey)
    requires Storable(r) && Storable(r') && Normalise(r) == Normalise(r')
    ensures Run(BuyThenSell(r, r')).events == [Event(1, Trade(MarketBuy, r)), Event(2, Trade(MarketSell, r'))]
    ensures History(Run(BuyThenSell(r, r')).events) == [Trade(MarketBuy, r), Trade(MarketSell, r')]
  {
    FirstBuyIsAccepted(r);
    assert BuyThenSell(r, r')[..1] == [Create(Trade(MarketBuy, r), true)];
    MismatchedSellIsCovered(r, r');
    SellComesSecond(r, r');
  }

  /** The fold raises on that history: the sell's own bucket is empty. */
  lemma {:induction false} MismatchedSellRaises(r: RawKey, r': RawKey)
    requires Storable(r) && Storable(r') && Normalise(r) == Normalise(r') && r != r'
    ensures BuildPositions(HistoryOn(Run(BuyThenSell(r, r')), 0)).None?
  {
    MismatchedSellIsAccepted(r, r');
    var events := Run(BuyThenSell(r, r')).events;
    var buy, sell := Trade(MarketBuy, r), Trade(MarketSell, r');
    KeepEverything(UpToDate(0), events);
    BucketOfExtended(r', [], buy);
    assert [] + [buy] == [buy];
    BucketOfExtended(r', [buy], sell);
    assert [buy] + [sell] == [buy, sell];
    InterleavedEqualsIndependent([buy, sell]);
  }

  /** Exactly when the local check is enough: for any vocabulary of stored keys, the fold never raises
      over any run that trades only under those keys if and only if no two of them normalise to the
      same validator key (`EUR` and `eur`, or a missing and an empty ISIN, do). */
  lemma {:induction false} FoldIsSafeExactlyWhenKeysAreInjective(keys: set<RawKey>)
    requires forall r :: r in keys ==> Storable(r)
    ensures FoldNeverRaises(keys) <==> NormaliseIsInjectiveOn(keys)
  {
    if NormaliseIsInjectiveOn(keys) {
      forall ops, date | TradesOnlyIn(keys, History(Run(ops).events))
        ensures BuildPositions(HistoryOn(Run(ops), date)).Some?
      {
        EveryRunFolds(ops, date);
      }
    } else {
      var r, r' :| r in keys && r' in keys && Normalise(r) == Normalise(r') && r != r';
      MismatchedSellIsAccepted(r, r');
      MismatchedSellRaises(r, r');
      assert TradesOnlyIn(keys, History(Run(BuyThenSell(r, r')).events));
    }
  }
}
