/** The owed service over mutable tables: each call applies one step or rolls back. */
module OwedService {
  import opened Outcomes
  import opened Ordering
  import opened OwedBooks
  import opened OwedPayments
  import opened OwedIntegrity

  /** A refusal anywhere in the list refuses the whole list with the same status. */
  lemma {:induction false} FirstRefusalStands(b: Books, person: string, amount: int, s: seq<Requested>, k: nat)
    requires k <= |s| && ValidateRequested(b, person, amount, s[..k]).Refused?
    ensures ValidateRequested(b, person, amount, s) == ValidateRequested(b, person, amount, s[..k])
  {
    if k < |s| {
      assert s[..|s| - 1][..k] == s[..k];
      FirstRefusalStands(b, person, amount, s[..|s| - 1], k);
    } else {
      assert s[..k] == s;
    }
  }

  /** The totals kept while validating: one entry for each item seen so far. */
  ghost predicate Tracks(totals: map<nat, int>, s: seq<Requested>) {
    forall id: nat :: RequestedFor(id, s) == if id in totals then totals[id] else 0
  }

  class Service {
    var items: seq<Item>
    var payments: map<nat, PaymentRow>
    var allocations: seq<Allocation>
    var events: seq<OwedEvent>
    var transactions: map<nat, Transaction>
    var nextPayment: nat
    var nextAllocation: nat

    function State(): Books
      reads this
    {
      Books(items, payments, allocations, events, transactions, nextPayment, nextAllocation)
    }

    constructor ()
      ensures State() == EMPTY_BOOKS
    {
      items, payments, allocations, events := [], map[], [], [];
      transactions, nextPayment, nextAllocation := map[], 0, 0;
    }

    method Rollback(b: Books)
      modifies this
      ensures State() == b
    {
      items, payments, allocations, events := b.items, b.payments, b.allocations, b.events;
      transactions, nextPayment, nextAllocation := b.transactions, b.nextPayment, b.nextAllocation;
    }

    /** Flush one item row and its event; the constraints may abort. */
    method SaveWithEvent(id: nat, item: Item, eventType: EventType, date: int) returns (r: Result<()>)
      requires id < |items|
      modifies this`items, this`events
      ensures match Post(old(State()), id, item, eventType, date)
        case Ok(b) => State() == b && r.Ok?
        case Refused(status) => State() == old(State()) && r == Refused(status)
    {
      if !RowChecks(item.total, item.paid, item.remaining) || !ReferencesHold(State(), id, item) {
        return Refused(ABORTED);
      }
      items := items[id := item];
      events := events + [EventFor(id, item, eventType, date)];
      return Ok(());
    }

    // -------------------------------------------------------------- items

    /** Create without committing: a refusal leaves whatever was written for the caller to roll back. */
    method AddItem(d: ItemDraft, now: int, today: int) returns (r: Result<nat>)
      modifies this`items, this`events
      ensures match CreateItem(old(State()), d, now, today)
        case Ok(b) => State() == b && r == Ok(|old(items)|)
        case Refused(status) => State() == old(State()) && r == Refused(status)
    {
      if !ItemSchemaAccepts(d) {
        return Refused(UNPROCESSABLE);
      }
      var key := WithDedupeKey(d);
      if KeyIsTaken(items, key) {
        return Refused(CONFLICT);
      }
      var remaining :- CalculateRemaining(d.total, d.paid);
      var status := CalculateStatus(d.paid, remaining);
      if !HasCapacity(State(), d.linked, d.total, status, None) {
        return Refused(BAD_REQUEST);
      }
      var item := Item(d.person, d.total, d.paid, remaining, status, d.linked, key, now, today, false);
      var id, date := |items|, EffectiveDate(State(), d, today);
      items := items + [item];
      events := events + [EventFor(id, item, Created, date)];
      return Ok(id);
    }

    method UpdateOwedItem(id: nat, p: ItemPatch, today: int) returns (r: Result<()>)
      modifies this`items, this`events
      ensures match UpdateItem(old(State()), id, p, today)
        case Ok(b) => State() == b && r.Ok?
        case Refused(status) => State() == old(State()) && r == Refused(status)
    {
      if p.person == Some("") || p.total.GetOr(1) <= 0 || p.paid.GetOr(0) < 0 {
        return Refused(UNPROCESSABLE);
      }
      if !Visible(State(), id) {
        return Refused(NOT_FOUND);
      }
      var item := items[id];
      var total, paid := p.total.GetOr(item.total), p.paid.GetOr(item.paid);
      var remaining :- CalculateRemaining(total, paid);
      var status := p.status.GetOr(CalculateStatus(paid, remaining));
      if !HasCapacity(State(), CheckedLink(item, p), total, status, Some(id)) {
        return Refused(BAD_REQUEST);
      }
      var next := item.(person := p.person.GetOr(item.person), total := total, paid := paid, remaining := remaining,
                        status := status, linked := p.linked.Over(item.linked), dedupe := p.dedupe.Over(item.dedupe),
                        updatedOn := today);
      var before := events;
      r := SaveWithEvent(id, next, UpdateEventType(item.status, status), today);
      if r.Ok? && total == item.total && paid == item.paid && status == item.status {
        events := before;
      }
    }

    method DeleteOwedItem(id: nat, today: int) returns (r: Result<()>)
      modifies this`items, this`events
      ensures match DeleteItem(old(State()), id, today)
        case Ok(b) => State() == b && r.Ok?
        case Refused(status) => State() == old(State()) && r == Refused(status)
    {
      if !Visible(State(), id) {
        return Refused(NOT_FOUND);
      }
      r := SaveWithEvent(id, items[id].(deleted := true, updatedOn := today), Deletion, today);
    }

    // -------------------------------------------------------------- payments

    /** Check explicit allocations against running totals, before anything is written. */
    method ValidateRequestedAllocations(person: string, amount: int, s: seq<Requested>) returns (r: Result<()>)
      ensures r == ValidateRequested(State(), person, amount, s)
    {
      var total := 0;
      var totals: map<nat, int> := map[];
      for k := 0 to |s|
        invariant ValidateRequested(State(), person, amount, s[..k]) == Ok(())
        invariant total == RequestedTotal(s[..k]) && Tracks(totals, s[..k])
      {
        assert s[..k + 1][..k] == s[..k];
        var row := s[k];
        if !Visible(State(), row.item) {
          FirstRefusalStands(State(), person, amount, s, k + 1);
          return Refused(NOT_FOUND);
        }
        var item := items[row.item];
        if item.person != person {
          FirstRefusalStands(State(), person, amount, s, k + 1);
          return Refused(BAD_REQUEST);
        }
        total := total + row.amount;
        if total > amount {
          FirstRefusalStands(State(), person, amount, s, k + 1);
          return Refused(BAD_REQUEST);
        }
        var itemTotal := (if row.item in totals then totals[row.item] else 0) + row.amount;
        if itemTotal > item.remaining {
          FirstRefusalStands(State(), person, amount, s, k + 1);
          return Refused(BAD_REQUEST);
        }
        totals := totals[row.item := itemTotal];
      }
      assert s[..|s|] == s;
      return Ok(());
    }

    /** Move `amount` to an item and answer what is left of the payment. */
    method AllocateToOwedItem(payment: nat, id: nat, amount: int, left: int, today: int) returns (r: Result<int>)
      requires payment in payments && id < |items|
      modifies this`items, this`events, this`allocations, this`nextAllocation
      ensures match Allocate(old(State()), payment, id, amount, left, today)
        case Ok(b) => State() == b && r == Ok(left - amount)
        case Refused(status) => r == Refused(status)
    {
      var item := items[id];
      if amount > left || amount > item.remaining {
        return Refused(BAD_REQUEST);
      }
      if amount <= 0 {
        return Refused(ABORTED);
      }
      allocations := allocations + [Allocation(nextAllocation, payment, id, amount)];
      nextAllocation := nextAllocation + 1;
      var remaining :- CalculateRemaining(item.total, item.paid + amount);
      var next := item.(paid := item.paid + amount, remaining := remaining,
                        status := CalculateStatus(item.paid + amount, remaining), updatedOn := today);
      var _ :- SaveWithEvent(id, next, Payment, payments[payment].date);
      return Ok(left - amount);
    }

    method ApplyAllocations(payment: nat, s: seq<Requested>, amount: int, today: int) returns (r: Result<()>)
      requires payment in payments && RequestedExist(State(), s)
      modifies this`items, this`events, this`allocations, this`nextAllocation
      ensures match ApplyRequested(old(State()), payment, s, amount, today)
        case Ok(b) => State() == b && r.Ok?
        case Refused(status) => r == Refused(status)
    {
      var left := amount;
      var k := 0;
      while k < |s|
        invariant k <= |s| && RequestedExist(State(), s)
        invariant ApplyRequested(State(), payment, s[k..], left, today)
               == ApplyRequested(old(State()), payment, s, amount, today)
      {
        assert s[k..][1..] == s[k + 1..];
        left :- AllocateToOwedItem(payment, s[k].item, s[k].amount, left, today);
        k := k + 1;
      }
      return Ok(());
    }

    method PayOldestFirst(payment: nat, ids: seq<nat>, stop: Option<nat>, amount: int, today: int) returns (r: Result<()>)
      requires payment in payments && AllExist(State(), ids)
      modifies this`items, this`events, this`allocations, this`nextAllocation
      ensures match Waterfall(old(State()), payment, ids, stop, amount, today)
        case Ok(b) => State() == b && r.Ok?
        case Refused(status) => r == Refused(status)
    {
      var left := amount;
      var k := 0;
      while k < |ids|
        invariant k <= |ids| && AllExist(State(), ids)
        invariant Waterfall(State(), payment, ids[k..], stop, left, today)
               == Waterfall(old(State()), payment, ids, stop, amount, today)
      {
        if stop == Some(ids[k]) || left <= 0 {
          return Ok(());
        }
        assert ids[k..][1..] == ids[k + 1..] && ids[k..][0] == ids[k];
        var share := if left <= items[ids[k]].remaining then left else items[ids[k]].remaining;
        left :- AllocateToOwedItem(payment, ids[k], share, left, today);
        k := k + 1;
      }
      return Ok(());
    }

    /** Rewrite the label of the person's rows, which stamps them. */
    method MergePersonLabels(person: string, today: int)
      modifies this`items
      ensures State() == Relabelled(old(State()), person, today)
    {
      for k := 0 to |items|
        invariant |items| == |old(items)|
        invariant forall i :: 0 <= i < |items| ==>
          items[i] == if i < k then Stamped(person, today)(old(items)[i]) else old(items)[i]
      {
        if items[k].person == person {
          items := items[k := items[k].(updatedOn := today)];
        }
      }
    }

    /** Record without committing. */
    method AddPayment(p: PaymentDraft, today: int) returns (r: Result<nat>)
      modifies this
      ensures match OwedPayments.RecordPayment(old(State()), p, today)
        case Ok(b) => State() == b && r == Ok(old(nextPayment))
        case Refused(status) => r == Refused(status)
    {
      MergePersonLabels(p.person, today);
      if !PaymentSchemaAccepts(p) {
        return Refused(UNPROCESSABLE);
      }
      if !LinkAccepts(State(), p.linked, p.amount) {
        return Refused(BAD_REQUEST);
      }
      var _ :- ValidateRequestedAllocations(p.person, p.amount, p.requested);
      var payment, before := nextPayment, State();
      payments := payments[payment := PaymentRow(p.person, p.date, p.amount, p.linked)];
      nextPayment := nextPayment + 1;
      if |p.requested| > 0 {
        ValidatedItemsExist(before, p.person, p.amount, p.requested);
        var _ :- ApplyAllocations(payment, p.requested, p.amount, today);
      } else {
        OpenItemsExist(items, p.person);
        var _ :- PayOldestFirst(payment, ListOpenByPerson(items, p.person), p.stopBefore, p.amount, today);
      }
      return Ok(payment);
    }

    method RecordPayment(p: PaymentDraft, today: int) returns (r: Result<nat>)
      modifies this
      ensures match OwedPayments.RecordPayment(old(State()), p, today)
        case Ok(b) => State() == b && r == Ok(old(nextPayment))
        case Refused(status) => State() == old(State()) && r == Refused(status)
    {
      var before := State();
      r := AddPayment(p, today);
      if r.Refused? {
        Rollback(before);
      }
    }

    method DeletePayment(payment: nat, today: int) returns (r: Result<()>)
      modifies this
      ensures match OwedPayments.DeletePayment(old(State()), payment, today)
        case Ok(b) => State() == b && r.Ok?
        case Refused(status) => State() == old(State()) && r == Refused(status)
    {
      if payment !in payments {
        return Refused(NOT_FOUND);
      }
      var before := State();
      var rows := Keep(OfPayment(payment), allocations);
      var k := 0;
      while k < |rows|
        invariant k <= |rows| && payments == before.payments
        invariant ReverseAll(State(), rows[k..], today) == ReverseAll(before, rows, today)
      {
        assert rows[k..][1..] == rows[k + 1..];
        var a := rows[k];
        if !Visible(State(), a.item) {
          Rollback(before);
          return Refused(BAD_REQUEST);
        }
        var item := items[a.item];
        var remaining := CalculateRemaining(item.total, item.paid - a.amount);
        if remaining.Refused? {
          Rollback(before);
          return Refused(remaining.status);
        }
        var next := item.(paid := item.paid - a.amount, remaining := remaining.value,
                          status := CalculateStatus(item.paid - a.amount, remaining.value), updatedOn := today);
        r := SaveWithEvent(a.item, next, PaymentReversed, today);
        if r.Refused? {
          Rollback(before);
          return;
        }
        allocations := Keep(OtherThan(a.id), allocations);
        k := k + 1;
      }
      payments := payments - {payment};
      return Ok(());
    }

    // -------------------------------------------------------------- integrity

    /** Walk the log in (date, id) order, overwriting each item's entry. */
    method LatestEventByItem() returns (latest: map<nat, OwedEvent>)
      ensures Holds(latest, events)
    {
      var order := Ascending(events);
      AscendingHoldsAll(events);
      latest := map[];
      for k := 0 to |order|
        invariant HoldsAfter(latest, events, order[..k])
      {
        assert order[k] in order && order[..k + 1] == order[..k] + [order[k]];
        OverwriteHolds(latest, events, order[..k], order[k]);
        latest := latest[events[order[k]].item := events[order[k]]];
      }
      assert order[..|order|] == order;
      forall id: nat ensures Latest(events, id) == if id in latest then Some(latest[id]) else None {
        assert HoldsFor(latest, events, order, id);
      }
    }

    method FindIntegrityIssues() returns (issues: seq<Issue>)
      ensures issues == FindIssues(State())
    {
      var ids := Listed(items);
      ListedExist(items);
      var latest := LatestEventByItem();
      issues := [];
      for k := 0 to |ids|
        invariant issues == IssuesAmong(State(), ids[..k])
      {
        var id, item := ids[k], items[ids[k]];
        IssuesGrow(State(), ids, k, latest);
        if id !in latest {
          issues := issues + [Issue(id, NoEvent, item.remaining, item.status, None)];
        } else if latest[id].eventType.Deletion? {
          issues := issues + [Issue(id, LatestIsDeletion, item.remaining, item.status, Some(latest[id]))];
        } else if latest[id].remaining != item.remaining || latest[id].status != item.status {
          issues := issues + [Issue(id, Mismatch, item.remaining, item.status, Some(latest[id]))];
        }
      }
      assert ids[..|ids|] == ids;
    }

    /** Append a corrective event for each stale item and report it; a constraint may abort. */
    method AppendCorrections(ids: seq<nat>, latest: map<nat, OwedEvent>) returns (r: Result<seq<Issue>>)
      requires Holds(latest, events) && AllExist(State(), ids)
      modifies this`events
      ensures AllEventChecks(Corrections(old(State()), ids)) ==>
        && r == Ok(Keep(IsMismatch(), IssuesAmong(old(State()), ids)))
        && events == old(events) + Corrections(old(State()), ids)
      ensures !AllEventChecks(Corrections(old(State()), ids)) ==> r == Refused(ABORTED) && events == old(events)
    {
      ghost var before := State();
      var was := events;
      var repaired: seq<Issue> := [];
      for k := 0 to |ids|
        invariant HalfRepaired(before, ids, k, events, repaired)
      {
        RepairOneMore(before, ids, k, latest, events, repaired);
        if IsStale(latest, ids[k], items[ids[k]]) {
          var e := Repair(latest, ids[k], items[ids[k]]);
          if !EventChecks(e) {
            FailsInTheEnd(before, ids, k + 1);
            events := was;
            return Refused(ABORTED);
          }
          repaired := repaired + [StaleIssue(latest, ids[k], items[ids[k]])];
          events := events + [e];
        }
      }
      assert ids[..|ids|] == ids;
      return Ok(repaired);
    }

    method BackfillStaleOwedEvents() returns (r: Result<seq<Issue>>)
      modifies this`events
      ensures match Backfill(old(State()))
        case Ok(b) => State() == b && r == Ok(RepairedIssues(old(State())))
        case Refused(status) => State() == old(State()) && r == Refused(status)
    {
      var ids := Listed(items);
      ListedExist(items);
      var latest := LatestEventByItem();
      r := AppendCorrections(ids, latest);
    }
  }

  /** The item has a latest event, not a deletion, that disagrees with it. */
  predicate IsStale(latest: map<nat, OwedEvent>, id: nat, item: Item) {
    && id in latest && !latest[id].eventType.Deletion?
    && (latest[id].remaining != item.remaining || latest[id].status != item.status)
  }

  function Repair(latest: map<nat, OwedEvent>, id: nat, item: Item): OwedEvent
    requires id in latest
  {
    EventFor(id, item, Payment, Later(item.updatedOn, latest[id].date))
  }

  lemma {:induction false} IssuesGrow(b: Books, ids: seq<nat>, k: nat, latest: map<nat, OwedEvent>)
    requires k < |ids| && ids[k] < |b.items| && Holds(latest, b.events)
    ensures var id, item := ids[k], b.items[ids[k]];
      IssuesAmong(b, ids[..k + 1])
      == IssuesAmong(b, ids[..k]) + IssueFor(id, item, if id in latest then Some(latest[id]) else None)
  {
    assert ids[..k + 1][..k] == ids[..k];
    assert Latest(b.events, ids[k]) == if ids[k] in latest then Some(latest[ids[k]]) else None;
  }

  function StaleIssue(latest: map<nat, OwedEvent>, id: nat, item: Item): Issue
    requires id in latest
  {
    Issue(id, Mismatch, item.remaining, item.status, Some(latest[id]))
  }

  /** The first `k` listed items have been repaired and reported. */
  ghost predicate HalfRepaired(b: Books, ids: seq<nat>, k: nat, events: seq<OwedEvent>, repaired: seq<Issue>) {
    && k <= |ids|
    && events == b.events + Corrections(b, ids[..k])
    && AllEventChecks(Corrections(b, ids[..k]))
    && repaired == Keep(IsMismatch(), IssuesAmong(b, ids[..k]))
  }

  lemma {:induction false} MismatchesGrow(b: Books, ids: seq<nat>, k: nat, latest: map<nat, OwedEvent>)
    requires k < |ids| && ids[k] < |b.items| && Holds(latest, b.events)
    ensures var id, item := ids[k], b.items[ids[k]];
      Keep(IsMismatch(), IssuesAmong(b, ids[..k + 1])) == Keep(IsMismatch(), IssuesAmong(b, ids[..k]))
        + if IsStale(latest, id, item) then [StaleIssue(latest, id, item)] else []
  {
    var id, item := ids[k], b.items[ids[k]];
    IssuesGrow(b, ids, k, latest);
    var added := IssueFor(id, item, if id in latest then Some(latest[id]) else None);
    KeepAppend(IsMismatch(), IssuesAmong(b, ids[..k]), added);
    if added != [] { KeepOne(IsMismatch(), added[0]); }
  }

  lemma {:induction false} RepairOneMore(b: Books, ids: seq<nat>, k: nat, latest: map<nat, OwedEvent>,
                                         events: seq<OwedEvent>, repaired: seq<Issue>)
    requires HalfRepaired(b, ids, k, events, repaired)
    requires k < |ids| && ids[k] < |b.items| && Holds(latest, b.events)
    ensures !IsStale(latest, ids[k], b.items[ids[k]]) ==> HalfRepaired(b, ids, k + 1, events, repaired)
    ensures IsStale(latest, ids[k], b.items[ids[k]]) ==>
      var item := b.items[ids[k]];
      var e := Repair(latest, ids[k], item);
      if EventChecks(e) then HalfRepaired(b, ids, k + 1, events + [e], repaired + [StaleIssue(latest, ids[k], item)])
      else !AllEventChecks(Corrections(b, ids[..k + 1]))
  {
    CorrectionsGrow(b, ids, k, latest);
    MismatchesGrow(b, ids, k, latest);
  }

  lemma {:induction false} ChecksOfOneMore(s: seq<OwedEvent>, e: OwedEvent)
    ensures AllEventChecks(s + [e]) <==> AllEventChecks(s) && EventChecks(e)
  {
    if AllEventChecks(s + [e]) {
      forall i | 0 <= i < |s| ensures EventChecks(s[i]) { assert (s + [e])[i] == s[i]; }
      assert (s + [e])[|s|] == e;
    }
  }

  lemma {:induction false} CorrectionsGrow(b: Books, ids: seq<nat>, k: nat, latest: map<nat, OwedEvent>)
    requires k < |ids| && ids[k] < |b.items| && Holds(latest, b.events)
    ensures !IsStale(latest, ids[k], b.items[ids[k]]) ==> Corrections(b, ids[..k + 1]) == Corrections(b, ids[..k])
    ensures IsStale(latest, ids[k], b.items[ids[k]]) ==>
      var e := Repair(latest, ids[k], b.items[ids[k]]);
      && Corrections(b, ids[..k + 1]) == Corrections(b, ids[..k]) + [e]
      && (AllEventChecks(Corrections(b, ids[..k + 1])) <==> AllEventChecks(Corrections(b, ids[..k])) && EventChecks(e))
  {
    assert ids[..k + 1][..k] == ids[..k];
    assert Latest(b.events, ids[k]) == if ids[k] in latest then Some(latest[ids[k]]) else None;
    if IsStale(latest, ids[k], b.items[ids[k]]) {
      ChecksOfOneMore(Corrections(b, ids[..k]), Repair(latest, ids[k], b.items[ids[k]]));
    }
  }

  ghost predicate HoldsFor(latest: map<nat, OwedEvent>, events: seq<OwedEvent>, order: seq<nat>, id: nat) {
    EventAt(events, LastOf(AboutItem(events, id), order)) == if id in latest then Some(latest[id]) else None
  }

  /** The table holds each item's last event of the part of the log walked so far. */
  ghost predicate HoldsAfter(latest: map<nat, OwedEvent>, events: seq<OwedEvent>, order: seq<nat>) {
    forall id :: HoldsFor(latest, events, order, id)
  }

  ghost predicate Holds(latest: map<nat, OwedEvent>, events: seq<OwedEvent>) {
    forall id: nat :: Latest(events, id) == if id in latest then Some(latest[id]) else None
  }

  lemma {:induction false} OverwriteHolds(latest: map<nat, OwedEvent>, events: seq<OwedEvent>, order: seq<nat>, i: nat)
    requires HoldsAfter(latest, events, order) && i < |events|
    ensures HoldsAfter(latest[events[i].item := events[i]], events, order + [i])
  {
    var latest' := latest[events[i].item := events[i]];
    forall id ensures HoldsFor(latest', events, order + [i], id) {
      LastOfAppend(AboutItem(events, id), order, i);
      assert HoldsFor(latest, events, order, id);
    }
  }

  lemma {:induction false} FailsInTheEnd(b: Books, ids: seq<nat>, k: nat)
    requires k <= |ids| && !AllEventChecks(Corrections(b, ids[..k]))
    ensures !AllEventChecks(Corrections(b, ids))
    decreases |ids| - k
  {
    if k < |ids| {
      assert ids[..k + 1][..k] == ids[..k];
      var i :| 0 <= i < |Corrections(b, ids[..k])| && !EventChecks(Corrections(b, ids[..k])[i]);
      assert Corrections(b, ids[..k + 1])[i] == Corrections(b, ids[..k])[i];
      FailsInTheEnd(b, ids, k + 1);
    } else {
      assert ids[..k] == ids;
    }
  }
}
