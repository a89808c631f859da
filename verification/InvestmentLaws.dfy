/** The ledger's two operations told by fields: which requests are accepted, and what the table then holds. */
module InvestmentLaws {
  import opened Outcomes
  import opened Ordering
  import opened InvestmentEvents
  import opened InvestmentTimeline
  import opened InvestmentLedger

  // ---------------------------------------------------------------- instruments

  /** The same letter, whatever its case. */
  predicate SameLetter(c: char, d: char) {
    || c == d
    || ('a' <= c <= 'z' && d as int == c as int - 32)
    || ('a' <= d <= 'z' && c as int == d as int - 32)
  }

  predicate SameIgnoringCase(s: string, t: string) {
    |s| == |t| && forall i :: 0 <= i < |s| ==> SameLetter(s[i], t[i])
  }

  /** Upper case turns `a` to `z` into `A` to `Z` and leaves every other character. */
  lemma {:induction false} UpperByLetters(s: string)
    ensures |Upper(s)| == |s|
    ensures forall i :: 0 <= i < |s| ==>
      if 'a' <= s[i] <= 'z' then Upper(s)[i] as int == s[i] as int - 32 else Upper(s)[i] == s[i]
  {
  }

  lemma {:induction false} UpperIgnoresCase(s: string, t: string)
    ensures Upper(s) == Upper(t) <==> SameIgnoringCase(s, t)
  {
    if Upper(s) == Upper(t) {
      assert |s| == |Upper(s)| == |Upper(t)| == |t|;
      forall i | 0 <= i < |s| ensures SameLetter(s[i], t[i]) {
        assert Upper(s)[i] == Upper(t)[i];
      }
    }
  }

  /** Two stored keys trade one instrument for the sell check: text that is missing is as good as empty, and the case of
      the currency does not matter. */
  predicate SameInstrument(r: RawKey, r': RawKey) {
    && (if r.ticker.Some? then r.ticker.value else "") == (if r'.ticker.Some? then r'.ticker.value else "")
    && (if r.isin.Some? then r.isin.value else "") == (if r'.isin.Some? then r'.isin.value else "")
    && SameIgnoringCase(r.currency, r'.currency)
  }

  /** The check merges exactly the keys that trade one instrument. */
  lemma {:induction false} KeysMergeExactlyWhenSame(r: RawKey, r': RawKey)
    ensures Normalise(r) == Normalise(r') <==> SameInstrument(r, r')
  {
    UpperIgnoresCase(r.currency, r'.currency);
  }

  // ---------------------------------------------------------------- holdings as running totals

  /** What one event adds to the units of an instrument. */
  function UnitsMoved(r: RawKey, d: EventData): real {
    if d.quantity.None? || !SameInstrument(RawKey(d.ticker, d.isin, d.currency), r) then 0.0
    else if d.eventType == MarketBuy then d.quantity.value
    else if d.eventType == MarketSell then -d.quantity.value
    else 0.0
  }

  /** Units of one instrument bought less units sold. */
  function NetUnits(r: RawKey, s: seq<EventData>): real {
    if |s| == 0 then 0.0 else NetUnits(r, s[..|s| - 1]) + UnitsMoved(r, s[|s| - 1])
  }

  /** At no point of the history have more units been sold than bought. */
  ghost predicate NeverShort(r: RawKey, s: seq<EventData>) {
    forall n :: 0 <= n <= |s| ==> NetUnits(r, s[..n]) >= 0.0
  }

  ghost predicate AllValid(s: seq<EventData>) {
    forall i :: 0 <= i < |s| ==> FieldsAreValid(s[i])
  }

  lemma {:induction false} ShorterPrefixes(r: RawKey, s: seq<EventData>)
    requires |s| > 0
    ensures NeverShort(r, s) <==> NeverShort(r, s[..|s| - 1]) && NetUnits(r, s) >= 0.0
  {
    var init := s[..|s| - 1];
    assert s[..|s|] == s;
    assert forall n :: 0 <= n <= |init| ==> init[..n] == s[..n];
  }

  lemma {:induction false} OneTradeMoves(r: RawKey, held: real, d: EventData)
    requires FieldsAreValid(d) && held >= 0.0
    ensures TradesOf(Normalise(r))(d) ==>
      && (HoldingAfter(held, d).Some? <==> held + UnitsMoved(r, d) >= 0.0)
      && (HoldingAfter(held, d).Some? ==> HoldingAfter(held, d).value == held + UnitsMoved(r, d))
    ensures !TradesOf(Normalise(r))(d) ==> UnitsMoved(r, d) == 0.0
  {
    KeysMergeExactlyWhenSame(RawKeyOf(d), r);
  }

  /** The holding that the check computes is the running total, and is there just when it never falls below zero. */
  lemma {:induction false} HoldingIsRunningTotal(r: RawKey, s: seq<EventData>)
    requires AllValid(s)
    ensures HoldingOf(Normalise(r), s).Some? <==> NeverShort(r, s)
    ensures HoldingOf(Normalise(r), s).Some? ==> HoldingOf(Normalise(r), s).value == NetUnits(r, s) >= 0.0
  {
    if |s| > 0 {
      var init, d := s[..|s| - 1], s[|s| - 1];
      assert s == init + [d];
      HoldingIsRunningTotal(r, init);
      ShorterPrefixes(r, s);
      HoldingOfExtended(Normalise(r), init, d);
      if HoldingOf(Normalise(r), init).Some? {
        OneTradeMoves(r, NetUnits(r, init), d);
      }
    }
  }

  /** No instrument is ever oversold: by keys of the check, and by running totals of stored keys. */
  lemma {:induction false} NeverOversoldIsNeverShort(s: seq<EventData>)
    requires AllValid(s)
    ensures NeverOversold(s) <==> forall r :: NeverShort(r, s)
  {
    if NeverOversold(s) {
      forall r ensures NeverShort(r, s) { HoldingIsRunningTotal(r, s); }
    }
    if forall r :: NeverShort(r, s) {
      forall k ensures HoldingOf(k, s).Some? {
        if HoldingOf(k, s).None? {
          var d := UsedKey(k, s);
          HoldingIsRunningTotal(RawKeyOf(d), s);
          assert NeverShort(RawKeyOf(d), s);
        }
      }
    }
  }

  /** A key without a holding is traded by some event. */
  lemma {:induction false} UsedKey(k: MarketKey, s: seq<EventData>) returns (d: EventData)
    requires HoldingOf(k, s).None?
    ensures Normalise(RawKeyOf(d)) == k
  {
    var init := s[..|s| - 1];
    d := s[|s| - 1];
    assert s == init + [d];
    HoldingOfExtended(k, init, d);
    if !TradesOf(k)(d) {
      d := UsedKey(k, init);
    }
  }

  // ---------------------------------------------------------------- fields

  /** Some character that stripping white space leaves. */
  predicate SaysSomething(text: Option<string>) {
    text.Some? && exists i :: 0 <= i < |text.value| && !IsSpace(text.value[i])
  }

  /** A row the service stores: a positive amount, a currency of three letters, and for a trade a positive quantity, a
      positive price and an instrument. */
  predicate FieldsAreValid(d: EventData) {
    && d.amount > 0.0 && |d.currency| == 3
    && (d.eventType == MarketBuy || d.eventType == MarketSell ==>
          && d.quantity.Some? && d.quantity.value > 0.0 && d.price.Some? && d.price.value > 0.0
          && (SaysSomething(d.ticker) || SaysSomething(d.isin)))
  }

  lemma {:induction false} PrintableIsNoSpace(c: char)
    ensures '!' <= c <= '~' ==> !IsSpace(c)
    ensures c == ' ' || c == '\t' || c == '\n' || c == '\r' ==> IsSpace(c)
  {
  }

  lemma {:induction false} ValidByFields(d: EventData)
    ensures SchemaAccepts(d) && CandidateIsValid(d) <==> FieldsAreValid(d)
  {
    assert HasText(d.ticker.GetOr("")) <==> SaysSomething(d.ticker);
    assert HasText(d.isin.GetOr("")) <==> SaysSomething(d.isin);
  }

  /** Each field given in the patch has its given value, and each field left out is as it was. */
  ghost predicate FieldsArePatched(was: EventData, p: EventPatch, now: EventData) {
    && Patches(p.date, was.date, now.date)
    && Patches(p.eventType, was.eventType, now.eventType)
    && Patches(p.ticker, was.ticker, now.ticker)
    && Patches(p.isin, was.isin, now.isin)
    && Patches(p.quantity, was.quantity, now.quantity)
    && Patches(p.price, was.price, now.price)
    && Patches(p.amount, was.amount, now.amount)
    && Patches(p.fees, was.fees, now.fees)
    && Patches(p.taxes, was.taxes, now.taxes)
    && Patches(p.currency, was.currency, now.currency)
  }

  predicate PatchIsAccepted(p: EventPatch) {
    && (p.amount.Set? ==> p.amount.value > 0.0)
    && (p.currency.Set? ==> |p.currency.value| == 3)
  }

  lemma {:induction false} PatchedIsMerged(was: EventData, p: EventPatch, now: EventData)
    ensures FieldsArePatched(was, p, now) <==> now == Merge(was, p)
  {
  }

  // ---------------------------------------------------------------- the table

  /** The table by date, and on one day by id. */
  ghost predicate InDateOrder(s: seq<Event>) {
    forall i, j :: 0 <= i < j < |s| ==>
      s[i].data.date < s[j].data.date || (s[i].data.date == s[j].data.date && s[i].id < s[j].id)
  }

  ghost predicate IdsDiffer(s: seq<Event>) {
    forall i, j :: 0 <= i < j < |s| ==> s[i].id != s[j].id
  }

  lemma {:induction false} TidyIsInOrder(l: Ledger)
    requires Tidy(l)
    ensures InDateOrder(l.events) && IdsDiffer(l.events)
    ensures AllValid(History(l.events))
    ensures forall i :: 0 <= i < |l.events| ==> l.events[i].id < l.nextId
  {
    forall i, j | 0 <= i < j < |l.events|
      ensures l.events[i].data.date < l.events[j].data.date
              || (l.events[i].data.date == l.events[j].data.date && l.events[i].id < l.events[j].id)
    {
      assert !Before(StoredOrder()(l.events[j]), StoredOrder()(l.events[i]));
    }
    forall i | 0 <= i < |l.events| ensures FieldsAreValid(History(l.events)[i]) {
      ValidByFields(l.events[i].data);
    }
  }

  /** Over every run the stored rows are valid, in date order under different ids, and no instrument is ever short. */
  lemma {:induction false} EveryRunIsNeverShort(ops: seq<Op>)
    ensures var events := Run(ops).events;
      InDateOrder(events) && IdsDiffer(events) && AllValid(History(events)) && forall r :: NeverShort(r, History(events))
  {
    EveryRunIsCovered(ops);
    TidyIsInOrder(Run(ops));
    NeverOversoldIsNeverShort(History(Run(ops).events));
  }

  /** A table that holds the given rows, in order. */
  ghost predicate Holds(s: seq<Event>, rows: multiset<Event>) {
    InDateOrder(s) && multiset(s) == rows
  }

  /** Such a table is never short, whichever it is. */
  ghost predicate StaysCovered(rows: multiset<Event>) {
    forall s, r :: Holds(s, rows) ==> NeverShort(r, History(s))
  }

  lemma {:induction false} LastIsLatest(s: seq<Event>, x: Event)
    requires InDateOrder(s) && |s| > 0 && x in s
    ensures var last := s[|s| - 1];
      x == last || x.data.date < last.data.date || (x.data.date == last.data.date && x.id < last.id)
  {
  }

  lemma {:induction false} WithoutLast(s: seq<Event>)
    requires |s| > 0
    ensures multiset(s[..|s| - 1]) == multiset(s) - multiset{s[|s| - 1]}
    ensures s == s[..|s| - 1] + [s[|s| - 1]]
  {
    assert s == s[..|s| - 1] + [s[|s| - 1]];
  }

  lemma {:induction false} SameLast(s: seq<Event>, t: seq<Event>)
    requires InDateOrder(s) && InDateOrder(t) && multiset(s) == multiset(t) && |s| > 0 && |t| > 0
    ensures s[|s| - 1] == t[|t| - 1]
  {
    var x, y := s[|s| - 1], t[|t| - 1];
    assert x in multiset(t) && y in multiset(s);
    LastIsLatest(t, x);
    LastIsLatest(s, y);
  }

  lemma {:induction false} SameLength(s: seq<Event>, t: seq<Event>)
    requires multiset(s) == multiset(t)
    ensures |s| == |t|
  {
    assert |multiset(s)| == |s|;
    assert |multiset(t)| == |t|;
  }

  lemma {:induction false} OneOrder(s: seq<Event>, t: seq<Event>)
    requires InDateOrder(s) && InDateOrder(t) && multiset(s) == multiset(t)
    ensures s == t
    decreases |s|
  {
    SameLength(s, t);
    if |s| > 0 {
      SameLast(s, t);
      WithoutLast(s);
      WithoutLast(t);
      OneOrder(s[..|s| - 1], t[..|t| - 1]);
    }
  }

  lemma {:induction false} CoveredTable(s: seq<Event>)
    requires InDateOrder(s) && AllValid(History(s))
    ensures NeverOversold(History(s)) <==> StaysCovered(multiset(s))
  {
    NeverOversoldIsNeverShort(History(s));
    if NeverOversold(History(s)) {
      forall t, r | Holds(t, multiset(s)) ensures NeverShort(r, History(t)) {
        OneOrder(t, s);
      }
    }
    if StaysCovered(multiset(s)) {
      forall r ensures NeverShort(r, History(s)) {
        assert Holds(s, multiset(s));
      }
    }
  }

  // ---------------------------------------------------------------- create

  /** The affected keys are covered exactly when all are: the local check refuses nothing that would do no harm. */
  lemma {:induction false} LocalCheckIsExact(s: seq<Event>, replaced: Option<Event>, c: Candidate, e: Event)
    requires Ordered(StoredOrder(), s) && NeverOversold(History(s)) && RanksAlike(c, e, s)
    requires replaced.Some? ==> forall i :: 0 <= i < |s| && s[i].id == replaced.value.id ==> s[i] == replaced.value
    ensures TimelineCovers(c, s, replaced)
       <==> NeverOversold(History(InsertBy(StoredOrder(), e, Keep(NotTheEvent(replaced), s))))
  {
    var rest := Keep(NotTheEvent(replaced), s);
    if TimelineCovers(c, s, replaced) { ReplacementKeepsCover(s, replaced, c, e); }
    if NeverOversold(History(InsertBy(StoredOrder(), e, rest))) {
      forall k | k in AffectedKeys(c, replaced) ensures HoldingOf(k, DataOf(Timeline(c, s, replaced))).Some? {
        assert HoldingOf(k, History(InsertBy(StoredOrder(), e, rest))).Some?;
        if IsMarket(c.data) {
          KeepOrder(StoredOrder(), NotTheEvent(replaced), s);
          KeepMembers(NotTheEvent(replaced), s);
          forall i | 0 <= i < |rest| ensures rest[i] in s { assert rest[i] in rest; }
          TimelineIsNextHistory(c, e, rest);
        } else {
          TimelineWithout(k, c, e, s, replaced);
          UntouchedKey(k, e, rest);
        }
      }
    }
  }

  lemma {:induction false} ExtendedTable(l: Ledger, e: Event)
    requires Tidy(l) && NeverOversold(History(l.events))
    requires e.id == l.nextId <= LAST_ID && FieldsAreValid(e.data)
    ensures var s := InsertBy(StoredOrder(), e, l.events);
      && Holds(s, multiset(l.events) + multiset{e})
      && (TimelineCovers(Candidate(None, e.data), l.events, None) <==> StaysCovered(multiset(l.events) + multiset{e}))
  {
    var s := InsertBy(StoredOrder(), e, l.events);
    ValidByFields(e.data);
    InsertKeepsTidy(l, l.events, e, l.nextId + 1);
    TidyIsInOrder(Ledger(s, l.nextId + 1));
    InsertAddsOne(StoredOrder(), e, l.events);
    CoveredTable(s);
    KeepEverything(NotTheEvent(None), l.events);
    LocalCheckIsExact(l.events, None, Candidate(None, e.data), e);
  }

  /** A new row is stored exactly when its fields are valid, its links are accepted, an id is left, and the table with it,
      last of its day, is never short; then the table holds it besides the old rows. */
  lemma {:induction false} CreateStoresTheRow(l: Ledger, d: EventData, linksAccepted: bool)
    requires Tidy(l) && NeverOversold(History(l.events))
    ensures CreateStep(l, d, linksAccepted).Ok? <==>
      && FieldsAreValid(d) && linksAccepted && l.nextId <= 2_147_483_647
      && StaysCovered(multiset(l.events) + multiset{Event(l.nextId, d)})
    ensures CreateStep(l, d, linksAccepted).Ok? ==>
      var l' := CreateStep(l, d, linksAccepted).value;
      Holds(l'.events, multiset(l.events) + multiset{Event(l.nextId, d)}) && l'.nextId == l.nextId + 1
  {
    ValidByFields(d);
    if FieldsAreValid(d) && l.nextId <= LAST_ID {
      ExtendedTable(l, Event(l.nextId, d));
    }
  }

  /** A row is unprocessable without a positive amount and a currency of three letters, cannot be stored when the ids are
      used up, and is a bad request whatever else is wrong. */
  lemma {:induction false} RefusedRows(l: Ledger, d: EventData, linksAccepted: bool)
    requires CreateStep(l, d, linksAccepted).Refused?
    ensures var r := CreateStep(l, d, linksAccepted);
      && (d.amount <= 0.0 || |d.currency| != 3 ==> r == Refused(422))
      && (d.amount > 0.0 && |d.currency| == 3 ==>
           r == Refused(400) || (r == Refused(500) && FieldsAreValid(d) && linksAccepted && l.nextId > 2_147_483_647))
  {
    ValidByFields(d);
  }

  // ---------------------------------------------------------------- update

  lemma {:induction false} WithoutOne(s: seq<Event>, e: Event)
    requires IdsDiffer(s) && e in s
    ensures multiset(Keep(NotTheEvent(Some(e)), s)) == multiset(s) - multiset{e}
  {
    var n := |s| - 1;
    var init := s[..n];
    assert s == init + [s[n]];
    if s[n] == e {
      forall i | 0 <= i < n ensures NotTheEvent(Some(e))(init[i]) { assert init[i] == s[i]; }
      KeepEverything(NotTheEvent(Some(e)), init);
    } else {
      var i :| 0 <= i < |s| && s[i] == e;
      assert init[i] == e && s[n].id != e.id;
      WithoutOne(init, e);
    }
  }

  lemma {:induction false} FoundById(l: Ledger, id: nat)
    requires Tidy(l)
    ensures Keep(HasId(id), l.events) == [] <==> forall i :: 0 <= i < |l.events| ==> l.events[i].id != id
    ensures Keep(HasId(id), l.events) != [] ==>
      Keep(HasId(id), l.events)[0] in l.events && Keep(HasId(id), l.events)[0].id == id
  {
    KeepMembers(HasId(id), l.events);
    if Keep(HasId(id), l.events) == [] {
      forall i | 0 <= i < |l.events| ensures l.events[i].id != id {
        assert l.events[i] in Keep(HasId(id), l.events) <==> l.events[i] in l.events && HasId(id)(l.events[i]);
      }
    } else {
      FoundEvent(l, id);
    }
  }

  /** An update of a row that is not there is refused as such. */
  lemma {:induction false} UnknownRowIsNotFound(l: Ledger, id: nat, p: EventPatch, linksAccepted: bool)
    requires Tidy(l) && PatchIsAccepted(p) && forall i :: 0 <= i < |l.events| ==> l.events[i].id != id
    ensures UpdateStep(l, id, p, linksAccepted) == Refused(404)
  {
    FoundById(l, id);
  }

  lemma {:induction false} UpdateAsReplacement(l: Ledger, was: Event, p: EventPatch, now: EventData, linksAccepted: bool)
    requires Tidy(l) && was in l.events && FieldsArePatched(was.data, p, now)
    ensures UpdateStep(l, was.id, p, linksAccepted).Ok? <==>
      && PatchIsAccepted(p) && linksAccepted && CandidateIsValid(now)
      && TimelineCovers(Candidate(Some(was.id), now), l.events, Some(was))
    ensures UpdateStep(l, was.id, p, linksAccepted).Ok? ==>
      UpdateStep(l, was.id, p, linksAccepted).value
      == l.(events := InsertBy(StoredOrder(), Event(was.id, now), Keep(NotTheEvent(Some(was)), l.events)))
  {
    PatchedIsMerged(was.data, p, now);
    FoundById(l, was.id);
    FoundEvent(l, was.id);
  }

  lemma {:induction false} ReplacedTable(l: Ledger, was: Event, e: Event)
    requires Tidy(l) && was in l.events && e.id == was.id && FieldsAreValid(e.data)
    ensures var s := InsertBy(StoredOrder(), e, Keep(NotTheEvent(Some(was)), l.events));
      && Holds(s, multiset(l.events) - multiset{was} + multiset{e})
      && (NeverOversold(History(s)) <==> StaysCovered(multiset(l.events) - multiset{was} + multiset{e}))
  {
    var rest := Keep(NotTheEvent(Some(was)), l.events);
    var s := InsertBy(StoredOrder(), e, rest);
    RemovalKeepsTidy(l, Some(was));
    KeepAll(NotTheEvent(Some(was)), l.events);
    ValidByFields(e.data);
    InsertKeepsTidy(l, rest, e, l.nextId);
    TidyIsInOrder(l.(events := s));
    TidyIsInOrder(l);
    WithoutOne(l.events, was);
    InsertAddsOne(StoredOrder(), e, rest);
    CoveredTable(s);
  }

  lemma {:induction false} StoredSchemaStays(l: Ledger, was: Event, p: EventPatch, now: EventData)
    requires Tidy(l) && was in l.events && FieldsArePatched(was.data, p, now) && PatchIsAccepted(p)
    ensures SchemaAccepts(now)
  {
    var i :| 0 <= i < |l.events| && l.events[i] == was;
    assert SchemaAccepts(l.events[i].data);
  }

  lemma {:induction false} CoverDecides(l: Ledger, was: Event, e: Event)
    requires Tidy(l) && NeverOversold(History(l.events)) && was in l.events && e.id == was.id && FieldsAreValid(e.data)
    ensures TimelineCovers(Candidate(Some(was.id), e.data), l.events, Some(was))
       <==> StaysCovered(multiset(l.events) - multiset{was} + multiset{e})
  {
    ReplacedTable(l, was, e);
    FoundById(l, was.id);
    FoundEvent(l, was.id);
    assert RanksAlike(Candidate(Some(was.id), e.data), e, l.events);
    LocalCheckIsExact(l.events, Some(was), Candidate(Some(was.id), e.data), e);
  }

  /** A stored row is changed exactly when the patch is accepted, its links are, the patched fields are valid, and the
      table with the patched row at its new place is never short; then the table holds that row under the same id in
      place of the old one, and every other row as it was. */
  lemma {:induction false} UpdatePatchesTheRow(l: Ledger, was: Event, p: EventPatch, now: EventData, linksAccepted: bool)
    requires Tidy(l) && NeverOversold(History(l.events)) && was in l.events && FieldsArePatched(was.data, p, now)
    ensures UpdateStep(l, was.id, p, linksAccepted).Ok? <==>
      && PatchIsAccepted(p) && linksAccepted && FieldsAreValid(now)
      && StaysCovered(multiset(l.events) - multiset{was} + multiset{Event(was.id, now)})
    ensures UpdateStep(l, was.id, p, linksAccepted).Ok? ==>
      var l' := UpdateStep(l, was.id, p, linksAccepted).value;
      && Holds(l'.events, multiset(l.events) - multiset{was} + multiset{Event(was.id, now)})
      && IdsDiffer(l'.events) && l'.nextId == l.nextId
  {
    UpdateAsReplacement(l, was, p, now, linksAccepted);
    ValidByFields(now);
    if PatchIsAccepted(p) { StoredSchemaStays(l, was, p, now); }
    if FieldsAreValid(now) {
      CoverDecides(l, was, Event(was.id, now));
      ReplacedTable(l, was, Event(was.id, now));
    }
    if UpdateStep(l, was.id, p, linksAccepted).Ok? {
      UpdateKeepsCover(l, was.id, p, linksAccepted);
      TidyIsInOrder(UpdateStep(l, was.id, p, linksAccepted).value);
    }
  }

  lemma {:induction false} RefusedPatches(l: Ledger, was: Event, p: EventPatch, linksAccepted: bool)
    requires Tidy(l) && was in l.events && UpdateStep(l, was.id, p, linksAccepted).Refused?
    ensures UpdateStep(l, was.id, p, linksAccepted) == Refused(if PatchIsAccepted(p) then 400 else 422)
  {
    FoundById(l, was.id);
  }
}
