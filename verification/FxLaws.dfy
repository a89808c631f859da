/** Both exchange-rate resolvers told by fields: which row or event gets which rate, and what is left alone. */
module FxLaws {
  import opened Outcomes
  import opened Ordering
  import opened InvestmentEvents
  import opened InvestmentLaws
  import opened FxResolution

  // ---------------------------------------------------------------- points

  /** A point that a rate may be taken from: a positive price in euros, dated within the range. */
  ghost predicate MayGiveRate(q: Point, from: int, to: int) {
    q.price > 0.0 && SameIgnoringCase(q.currency, "EUR") && from <= q.date <= to
  }

  /** The series' latest such point. */
  ghost predicate IsLatestPoint(s: seq<Point>, from: int, to: int, p: Point) {
    p in s && MayGiveRate(p, from, to) && forall q :: q in s && MayGiveRate(q, from, to) ==> q.date <= p.date
  }

  ghost predicate NoPoint(s: seq<Point>, from: int, to: int) {
    forall q :: q in s ==> !MayGiveRate(q, from, to)
  }

  lemma {:induction false} UsableByFields(q: Point, from: int, to: int)
    ensures MayGiveRate(q, from, to) <==> IsUsable(q) && from <= q.date <= to
  {
    UpperIgnoresCase(q.currency, "EUR");
    assert Upper("EUR") == "EUR";
  }

  lemma {:induction false} LatestIsBest(s: seq<Point>, from: int, to: int, p: Point)
    ensures IsBest(s, from, to, p) <==> IsLatestPoint(s, from, to, p)
  {
    forall q ensures MayGiveRate(q, from, to) <==> IsUsable(q) && from <= q.date <= to {
      UsableByFields(q, from, to);
    }
  }

  // ---------------------------------------------------------------- row by row

  /** The rate of the latest point of the last seven days, rounded, with that point's date; nothing if there is none. */
  lemma {:induction false} LookupByFields(p: Provider, quantize: real -> real, currency: string, date: int)
    ensures var found := Lookup(p, quantize, currency, date);
      && (found.None? <==> currency !in p.series || NoPoint(p.series[currency], date - 7, date))
      && (found.Some? ==>
           && currency in p.series
           && (exists q ::
                 IsLatestPoint(p.series[currency], date - 7, date, q) && found == Some((quantize(q.price), q.date))))
  {
    if currency in p.series {
      var s := p.series[currency];
      var eligible := Keep(UsableUpTo(date), Keep(InRange(date - 7, date), s));
      KeepMembers(InRange(date - 7, date), s);
      KeepMembers(UsableUpTo(date), Keep(InRange(date - 7, date), s));
      forall q ensures q in eligible <==> q in s && MayGiveRate(q, date - 7, date) {
        UsableByFields(q, date - 7, date);
      }
      if eligible == [] {
        assert forall q :: q in s ==> q !in eligible;
      } else {
        assert Newest(eligible) in eligible;
        NewestIsBest(s, date - 7, date);
        LatestIsBest(s, date - 7, date, Newest(eligible));
      }
    }
  }

  /** A row in euros gets the rate one. Another is left alone if it has a rate that is not pending, is an unmatched deposit,
      or no point can be found; else it gets the found rate and where it is from. Nothing else of a row changes. */
  lemma {:induction false} RowByFields(p: Provider, quantize: real -> real, row: ImportedRow)
    ensures var r := ResolveRow(p, quantize, row);
      && r == row.(rate := r.rate, source := r.source)
      && (SameIgnoringCase(row.currency, "EUR") ==> r.rate == Some(1.0) && r.source == Some(SourceCurrency))
      && (!SameIgnoringCase(row.currency, "EUR") ==>
           if (row.rate != None && row.source != Some(Pending)) || row.isUnmatchedDeposit
              || Lookup(p, quantize, Upper(row.currency), row.date).None? then r == row
           else
             var found := Lookup(p, quantize, Upper(row.currency), row.date).value;
             r.rate == Some(found.0) && r.source == Some(Historical(found.1)))
  {
    UpperIgnoresCase(row.currency, "EUR");
    assert Upper("EUR") == "EUR";
  }

  // ---------------------------------------------------------------- the batch

  /** An event not in euros that has no positive rate, or one that is pending. */
  predicate WaitsForRate(e: FxEvent) {
    e.currency != "EUR" && !(e.rate.Some? && e.rate.value > 0.0 && e.source != Some(Pending))
  }

  /** No waiting event of the currency is earlier. */
  ghost predicate IsEarliestWaiting(events: seq<FxEvent>, e: FxEvent) {
    && e in events && WaitsForRate(e)
    && forall d :: d in events && WaitsForRate(d) && SameIgnoringCase(d.currency, e.currency) ==> e.date <= d.date
  }

  lemma {:induction false} WaitingByFields(e: FxEvent)
    ensures WaitsForRate(e) <==> IsUnresolved(e)
  {
  }

  lemma {:induction false} SpanByFields(events: seq<FxEvent>, e: FxEvent, first: FxEvent)
    requires e in events && WaitsForRate(e)
    requires IsEarliestWaiting(events, first) && SameIgnoringCase(first.currency, e.currency)
    ensures e in Keep(Unresolved(), events)
    ensures FromOf(Keep(Unresolved(), events), Upper(e.currency)) == first.date - 10
  {
    var pending, c := Keep(Unresolved(), events), Upper(e.currency);
    KeepMembers(Unresolved(), events);
    KeepMembers(OfCurrency(c), pending);
    UpperIgnoresCase(first.currency, e.currency);
    var own := Keep(OfCurrency(c), pending);
    assert first in pending && first in own && e in pending && e in own;
    forall d | d in own ensures first.date <= d.date {
      UpperIgnoresCase(d.currency, e.currency);
      UpperIgnoresCase(d.currency, first.currency);
    }
    var i :| 0 <= i < |own| && own[i].date == FirstDate(own);
    assert own[i] in own;
  }

  /** Events that do not wait stay. A waiting one gets the rounded rate of the latest point from ten days before its
      currency's earliest waiting event up to its own date, with that point's date as source, and stays if there is none.
      Nothing else of an event changes, and none moves. */
  lemma {:induction false} BatchByFields(p: Provider, quantize: real -> real, events: seq<FxEvent>, i: nat, first: FxEvent)
    requires i < |events|
    requires WaitsForRate(events[i]) ==>
      IsEarliestWaiting(events, first) && SameIgnoringCase(first.currency, events[i].currency)
    ensures |ResolveStep(p, quantize, events)| == |events|
    ensures var e, e' := events[i], ResolveStep(p, quantize, events)[i];
      var c := Upper(e.currency);
      && (!WaitsForRate(e) ==> e' == e)
      && (WaitsForRate(e) && (c !in p.series || NoPoint(p.series[c], first.date - 10, e.date)) ==> e' == e)
      && (WaitsForRate(e) && c in p.series && !NoPoint(p.series[c], first.date - 10, e.date) ==>
           exists q :: IsLatestPoint(p.series[c], first.date - 10, e.date, q)
             && e' == e.(rate := Some(quantize(q.price)), source := Some(Historical(q.date))))
  {
    var e, pending := events[i], Keep(Unresolved(), events);
    WaitingByFields(e);
    if WaitsForRate(e) {
      SpanByFields(events, e, first);
      BatchPicksBest(p, pending, e);
      ChosenByFields(p, pending, e, first.date - 10);
    }
  }

  lemma {:induction false} ChosenByFields(p: Provider, pending: seq<FxEvent>, e: FxEvent, from: int)
    requires e in pending && from == FromOf(pending, Upper(e.currency))
    ensures var c := Upper(e.currency);
      && (Chosen(p, pending, e).None? <==> c !in p.series || NoPoint(p.series[c], from, e.date))
      && (Chosen(p, pending, e).Some? ==>
           c in p.series && IsLatestPoint(p.series[c], from, e.date, Chosen(p, pending, e).value))
  {
    var c := Upper(e.currency);
    BatchPicksBest(p, pending, e);
    if c in p.series {
      forall q ensures MayGiveRate(q, from, e.date) <==> IsUsable(q) && from <= q.date <= e.date {
        UsableByFields(q, from, e.date);
      }
      if Chosen(p, pending, e).Some? { LatestIsBest(p.series[c], from, e.date, Chosen(p, pending, e).value); }
    }
  }
}
