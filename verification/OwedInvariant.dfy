/** What every owed step keeps: balanced items, funded allocations, and a log that mirrors the items. */
module OwedInvariant {
  import opened Outcomes
  import opened Ordering
  import opened OwedBooks
  import opened OwedPayments

  ghost predicate ItemBalances(i: Item) {
    i.total > 0 && 0 <= i.paid <= i.total && i.paid + i.remaining == i.total
  }

  ghost function Total(s: seq<Allocation>): int {
    if |s| == 0 then 0 else Total(s[..|s| - 1]) + s[|s| - 1].amount
  }

  ghost function AllocatedOf(s: seq<Allocation>, item: nat): int {
    Total(Keep(OfItem(item), s))
  }

  ghost function AllocatedFrom(s: seq<Allocation>, payment: nat): int {
    Total(Keep(OfPayment(payment), s))
  }

  /** The part of an item's paid amount that no allocation explains. */
  ghost function Baseline(b: Books, id: nat): int
    requires id < |b.items|
  {
    b.items[id].paid - AllocatedOf(b.allocations, id)
  }

  ghost function LastEvent(s: seq<OwedEvent>, item: nat): Option<OwedEvent> {
    if |s| == 0 then None
    else if s[|s| - 1].item == item then Some(s[|s| - 1])
    else LastEvent(s[..|s| - 1], item)
  }

  /** An event carries an item's exact amounts and status, and is a deletion just when it is deleted. */
  ghost predicate Mirrors(e: OwedEvent, i: Item) {
    && e.total == i.total && e.paid == i.paid && e.remaining == i.remaining && e.status == i.status
    && (e.eventType.Deletion? <==> i.deleted)
  }

  ghost predicate LogMirrors(b: Books, id: nat)
    requires id < |b.items|
  {
    LastEvent(b.events, id).Some? && Mirrors(LastEvent(b.events, id).value, b.items[id])
  }

  ghost predicate AllocationStands(b: Books, a: Allocation) {
    a.amount > 0 && a.item < |b.items| && a.payment in b.payments && a.id < b.nextAllocation
  }

  ghost predicate AllocationsStand(b: Books) {
    && (forall j :: 0 <= j < |b.allocations| ==> AllocationStands(b, b.allocations[j]))
    && (forall i, j :: 0 <= i < j < |b.allocations| ==> b.allocations[i].id != b.allocations[j].id)
  }

  ghost predicate PaymentsCover(b: Books) {
    forall p :: p in b.payments ==>
      p < b.nextPayment && b.payments[p].amount > 0 && AllocatedFrom(b.allocations, p) <= b.payments[p].amount
  }

  /** Foreign keys to transactions hold and no two items share a dedupe key. */
  ghost predicate ReferencesStand(b: Books) {
    && (forall i :: 0 <= i < |b.items| ==> ReferencesHold(b, i, b.items[i]))
    && (forall p :: p in b.payments && b.payments[p].linked.Some? ==> b.payments[p].linked.value in b.transactions)
  }

  ghost predicate ItemsBalance(b: Books) {
    forall i :: 0 <= i < |b.items| ==> ItemBalances(b.items[i])
  }

  ghost predicate LogStands(b: Books) {
    && (forall i :: 0 <= i < |b.items| ==> LogMirrors(b, i))
    && (forall j :: 0 <= j < |b.events| ==> b.events[j].item < |b.items|)
  }

  ghost predicate Inv(b: Books) {
    ItemsBalance(b) && LogStands(b) && AllocationsStand(b) && PaymentsCover(b) && ReferencesStand(b)
  }

  lemma {:induction false} SameLog(b: Books, b': Books)
    requires LogStands(b) && b'.items == b.items && b'.events == b.events
    ensures LogStands(b')
  {
    forall i | 0 <= i < |b'.items| ensures LogMirrors(b', i) {
      assert LogMirrors(b, i);
    }
  }

  lemma {:induction false} SameReferences(b: Books, b': Books)
    requires ReferencesStand(b) && b'.items == b.items && b'.payments == b.payments && b'.transactions == b.transactions
    ensures ReferencesStand(b')
  {
  }

  lemma {:induction false} SameAllocations(b: Books, b': Books)
    requires AllocationsStand(b) && PaymentsCover(b) && |b.items| <= |b'.items|
    requires b'.allocations == b.allocations && b'.payments == b.payments
    requires b'.nextAllocation == b.nextAllocation && b'.nextPayment == b.nextPayment
    ensures AllocationsStand(b') && PaymentsCover(b')
  {
  }

  /** How one state may follow another: items and events are only added, deleted items are frozen, and
      no item's baseline moves except `edited`. */
  ghost predicate Follows(b: Books, b': Books, edited: Option<nat>) {
    && |b.items| <= |b'.items|
    && b.events <= b'.events
    && b.nextPayment <= b'.nextPayment
    && (forall i :: 0 <= i < |b.items| ==> Frozen(b, b', i))
    && (forall i :: 0 <= i < |b.items| && edited != Some(i) ==> Baseline(b', i) == Baseline(b, i))
  }

  ghost predicate Frozen(b: Books, b': Books, i: nat)
    requires i < |b.items| <= |b'.items|
  {
    b.items[i].deleted ==>
      && b'.items[i].deleted
      && b'.items[i].total == b.items[i].total && b'.items[i].paid == b.items[i].paid
      && b'.items[i].remaining == b.items[i].remaining && b'.items[i].status == b.items[i].status
  }

  lemma {:induction false} FollowsInTurn(a: Books, b: Books, c: Books, edited: Option<nat>)
    requires Follows(a, b, edited) && Follows(b, c, edited)
    ensures Follows(a, c, edited)
  {
    forall i | 0 <= i < |a.items| ensures Frozen(a, c, i) {
      assert Frozen(a, b, i) && Frozen(b, c, i);
    }
    forall i | 0 <= i < |a.items| && edited != Some(i) ensures Baseline(c, i) == Baseline(a, i) {
      assert Baseline(b, i) == Baseline(a, i);
    }
  }

  // ---------------------------------------------------------------- sums and logs

  lemma {:induction false} TotalAppend(a: seq<Allocation>, b: seq<Allocation>)
    ensures Total(a + b) == Total(a) + Total(b)
  {
    if |b| == 0 {
      assert a + b == a;
    } else {
      TotalAppend(a, b[..|b| - 1]);
      assert (a + b)[..|a + b| - 1] == a + b[..|b| - 1];
    }
  }

  lemma {:induction false} TotalOfOne(a: Allocation)
    ensures Total([a]) == a.amount
  {
  }

  lemma {:induction false} KeepTotalAppend(p: Allocation -> bool, s: seq<Allocation>, a: Allocation)
    ensures Total(Keep(p, s + [a])) == Total(Keep(p, s)) + if p(a) then a.amount else 0
  {
    KeepAppend(p, s, [a]);
    KeepOne(p, a);
    TotalAppend(Keep(p, s), if p(a) then [a] else []);
    TotalOfOne(a);
  }

  lemma {:induction false} RemovedById(s: seq<Allocation>, j: nat)
    requires j < |s|
    requires forall i, k :: 0 <= i < k < |s| ==> s[i].id != s[k].id
    ensures Keep(OtherThan(s[j].id), s) == s[..j] + s[j + 1..]
  {
    var q, pre, post := OtherThan(s[j].id), s[..j], s[j + 1..];
    assert s == pre + [s[j]] + post;
    KeepAppend(q, pre + [s[j]], post);
    KeepAppend(q, pre, [s[j]]);
    KeepOne(q, s[j]);
    KeepEverything(q, pre);
    KeepEverything(q, post);
  }

  lemma {:induction false} TotalWithout(p: Allocation -> bool, s: seq<Allocation>, j: nat)
    requires j < |s|
    ensures Total(Keep(p, s[..j] + s[j + 1..])) == Total(Keep(p, s)) - if p(s[j]) then s[j].amount else 0
  {
    var pre, post := s[..j], s[j + 1..];
    assert s == pre + [s[j]] + post;
    KeepAppend(p, pre + [s[j]], post);
    KeepAppend(p, pre, post);
    TotalAppend(Keep(p, pre + [s[j]]), Keep(p, post));
    TotalAppend(Keep(p, pre), Keep(p, post));
    KeepTotalAppend(p, pre, s[j]);
  }

  lemma {:induction false} RemovedAllocation(p: Allocation -> bool, s: seq<Allocation>, j: nat)
    requires j < |s|
    requires forall i, k :: 0 <= i < k < |s| ==> s[i].id != s[k].id
    ensures Keep(OtherThan(s[j].id), s) == s[..j] + s[j + 1..]
    ensures Total(Keep(p, Keep(OtherThan(s[j].id), s))) == Total(Keep(p, s)) - if p(s[j]) then s[j].amount else 0
  {
    RemovedById(s, j);
    TotalWithout(p, s, j);
  }

  lemma {:induction false} LastEventOf(s: seq<OwedEvent>, e: OwedEvent, id: nat)
    ensures LastEvent(s + [e], id) == if e.item == id then Some(e) else LastEvent(s, id)
  {
  }

  lemma {:induction false} NoEventBefore(s: seq<OwedEvent>, id: nat)
    requires forall j :: 0 <= j < |s| ==> s[j].item != id
    ensures LastEvent(s, id).None?
  {
    if |s| > 0 {
      NoEventBefore(s[..|s| - 1], id);
    }
  }

  // ---------------------------------------------------------------- primitive changes

  lemma {:induction false} ReplacedReferences(b: Books, b': Books, id: nat)
    requires ReferencesStand(b) && id < |b.items| == |b'.items| && ReferencesHold(b, id, b'.items[id])
    requires b'.items == b.items[id := b'.items[id]] && b'.payments == b.payments && b'.transactions == b.transactions
    ensures ReferencesStand(b')
  {
  }

  /** Replacing an item and logging it. */
  lemma {:induction false} PostKeeps(b: Books, id: nat, item: Item, eventType: EventType, date: int)
    requires Inv(b) && Visible(b, id)
    requires item.paid + item.remaining == item.total
    requires eventType.Deletion? <==> item.deleted
    requires Post(b, id, item, eventType, date).Ok?
    ensures var b' := Post(b, id, item, eventType, date).value;
      Inv(b') && Follows(b, b', Some(id)) && (item.paid == b.items[id].paid ==> Follows(b, b', None))
  {
    var b' := Post(b, id, item, eventType, date).value;
    ReplacedReferences(b, b', id);
    forall i | 0 <= i < |b'.items| ensures LogMirrors(b', i) {
      LastEventOf(b.events, EventFor(id, item, eventType, date), i);
      assert LogMirrors(b, i);
    }
    SameAllocations(b, b');
  }

  lemma {:induction false} NewItemKeeps(b: Books, item: Item, date: int, b': Books)
    requires Inv(b) && ItemBalances(item) && !item.deleted && ReferencesHold(b, |b.items|, item)
    requires b' == b.(items := b.items + [item], events := b.events + [EventFor(|b.items|, item, Created, date)])
    ensures Inv(b') && Follows(b, b', None)
  {
    var e := EventFor(|b.items|, item, Created, date);
    assert ReferencesStand(b') by {
      forall i | 0 <= i < |b'.items| ensures ReferencesHold(b', i, b'.items[i]) {
        if i < |b.items| { assert ReferencesHold(b, i, b.items[i]); }
      }
    }
    forall i | 0 <= i < |b'.items| ensures LogMirrors(b', i) {
      LastEventOf(b.events, e, i);
      if i < |b.items| { assert LogMirrors(b, i); }
    }
    SameAllocations(b, b');
  }

  lemma {:induction false} UpdateKeeps(b: Books, id: nat, p: ItemPatch, today: int)
    requires Inv(b) && UpdateItem(b, id, p, today).Ok?
    ensures var b' := UpdateItem(b, id, p, today).value; Inv(b') && Follows(b, b', Some(id))
  {
    var b' := UpdateItem(b, id, p, today).value;
    var item, next := b.items[id], b'.items[id];
    var eventType := UpdateEventType(item.status, next.status);
    PostKeeps(b, id, next, eventType, today);
    var posted := Post(b, id, next, eventType, today).value;
    if b' != posted {
      ReplacedReferences(b, b', id);
      SameAllocations(b, b');
      forall i | 0 <= i < |b'.items| ensures LogMirrors(b', i) {
        assert LogMirrors(b, i);
      }
    }
  }

  /** `left` is what the payment has not spent yet. */
  ghost predicate Unspent(b: Books, payment: nat, left: int) {
    payment in b.payments && AllocatedFrom(b.allocations, payment) + left == b.payments[payment].amount && left >= 0
  }

  function WithAllocation(b: Books, payment: nat, id: nat, amount: int): Books {
    b.(allocations := b.allocations + [Allocation(b.nextAllocation, payment, id, amount)],
       nextAllocation := b.nextAllocation + 1)
  }

  lemma {:induction false} AllocatedFromExtended(b: Books, payment: nat, id: nat, amount: int, p: nat)
    ensures AllocatedFrom(WithAllocation(b, payment, id, amount).allocations, p)
         == AllocatedFrom(b.allocations, p) + if p == payment then amount else 0
  {
    KeepTotalAppend(OfPayment(p), b.allocations, Allocation(b.nextAllocation, payment, id, amount));
  }

  lemma {:induction false} AllocatedOfExtended(b: Books, payment: nat, id: nat, amount: int, i: nat)
    ensures AllocatedOf(WithAllocation(b, payment, id, amount).allocations, i)
         == AllocatedOf(b.allocations, i) + if i == id then amount else 0
  {
    KeepTotalAppend(OfItem(i), b.allocations, Allocation(b.nextAllocation, payment, id, amount));
  }

  lemma {:induction false} WithAllocationKeeps(b: Books, payment: nat, id: nat, amount: int, left: int)
    requires Inv(b) && id < |b.items| && Unspent(b, payment, left) && 0 < amount <= left
    ensures var b' := WithAllocation(b, payment, id, amount); Inv(b') && Unspent(b', payment, left - amount)
  {
    var b' := WithAllocation(b, payment, id, amount);
    SameLog(b, b');
    SameReferences(b, b');
    assert AllocationsStand(b') by {
      forall j | 0 <= j < |b'.allocations| ensures AllocationStands(b', b'.allocations[j]) {
        if j < |b.allocations| { assert AllocationStands(b, b.allocations[j]); }
      }
    }
    assert PaymentsCover(b') by {
      forall p | p in b'.payments ensures AllocatedFrom(b'.allocations, p) <= b'.payments[p].amount {
        AllocatedFromExtended(b, payment, id, amount, p);
      }
    }
    AllocatedFromExtended(b, payment, id, amount, payment);
  }

  /** When an item's paid amount and its allocations move by the same amount, no baseline moves. */
  lemma {:induction false} SettledTogether(b: Books, posted: Books, b': Books, id: nat, delta: int)
    requires id < |b.items| && Follows(b, posted, Some(id)) && b'.items == posted.items && b'.events == posted.events
    requires b'.nextPayment == posted.nextPayment
    requires posted.allocations == b.allocations && posted.items[id].paid == b.items[id].paid + delta
    requires forall i :: 0 <= i < |b.items| ==>
      AllocatedOf(b'.allocations, i) == AllocatedOf(b.allocations, i) + if i == id then delta else 0
    ensures Follows(b, b', None)
  {
    forall i | 0 <= i < |b.items| ensures Frozen(b, b', i) && Baseline(b', i) == Baseline(b, i) {
      assert Frozen(b, posted, i);
      if i != id { assert Baseline(posted, i) == Baseline(b, i); }
    }
  }

  /** An allocation raises what is paid by exactly what it explains, so no baseline moves. */
  lemma {:induction false} AllocateKeeps(b: Books, payment: nat, id: nat, amount: int, left: int, today: int)
    requires Inv(b) && Visible(b, id) && Unspent(b, payment, left)
    requires Allocate(b, payment, id, amount, left, today).Ok?
    ensures var b' := Allocate(b, payment, id, amount, left, today).value;
      Inv(b') && Follows(b, b', None) && Unspent(b', payment, left - amount) && b'.payments == b.payments
  {
    var b' := Allocate(b, payment, id, amount, left, today).value;
    var posted := Post(b, id, b'.items[id], Payment, b.payments[payment].date).value;
    PostKeeps(b, id, b'.items[id], Payment, b.payments[payment].date);
    assert b' == WithAllocation(posted, payment, id, amount);
    WithAllocationKeeps(posted, payment, id, amount, left);
    forall i | 0 <= i < |b.items|
      ensures AllocatedOf(b'.allocations, i) == AllocatedOf(b.allocations, i) + if i == id then amount else 0
    {
      AllocatedOfExtended(posted, payment, id, amount, i);
    }
    SettledTogether(b, posted, b', id, amount);
  }

  function WithoutAllocation(b: Books, j: nat): Books
    requires j < |b.allocations|
  {
    b.(allocations := Keep(OtherThan(b.allocations[j].id), b.allocations))
  }

  lemma {:induction false} WithoutAllocationStands(b: Books, j: nat)
    requires AllocationsStand(b) && j < |b.allocations|
    ensures AllocationsStand(WithoutAllocation(b, j))
  {
    var b' := WithoutAllocation(b, j);
    RemovedAllocation(OfItem(0), b.allocations, j);
    forall k | 0 <= k < |b'.allocations| ensures AllocationStands(b', b'.allocations[k]) {
      assert b'.allocations[k] == b.allocations[if k < j then k else k + 1];
      assert AllocationStands(b, b.allocations[if k < j then k else k + 1]);
    }
  }

  lemma {:induction false} WithoutAllocationCovers(b: Books, j: nat)
    requires AllocationsStand(b) && PaymentsCover(b) && j < |b.allocations|
    ensures PaymentsCover(WithoutAllocation(b, j))
  {
    forall p | p in b.payments
      ensures AllocatedFrom(WithoutAllocation(b, j).allocations, p) <= b.payments[p].amount
    {
      assert AllocationStands(b, b.allocations[j]);
      RemovedAllocation(OfPayment(p), b.allocations, j);
    }
  }

  lemma {:induction false} WithoutAllocationKeeps(b: Books, j: nat)
    requires Inv(b) && j < |b.allocations|
    ensures Inv(WithoutAllocation(b, j))
  {
    WithoutAllocationStands(b, j);
    WithoutAllocationCovers(b, j);
    SameLog(b, WithoutAllocation(b, j));
    SameReferences(b, WithoutAllocation(b, j));
  }

  lemma {:induction false} AllocatedOfReduced(b: Books, j: nat, i: nat)
    requires AllocationsStand(b) && j < |b.allocations|
    ensures AllocatedOf(WithoutAllocation(b, j).allocations, i)
         == AllocatedOf(b.allocations, i) - if i == b.allocations[j].item then b.allocations[j].amount else 0
  {
    RemovedAllocation(OfItem(i), b.allocations, j);
  }

  /** A reversal lowers what is paid by exactly the allocation it removes, so no baseline moves. */
  lemma {:induction false} ReverseOneKeeps(b: Books, j: nat, today: int)
    requires Inv(b) && j < |b.allocations|
    requires ReverseOne(b, b.allocations[j], today).Ok?
    ensures var b' := ReverseOne(b, b.allocations[j], today).value;
      Inv(b') && Follows(b, b', None) && b'.payments == b.payments
  {
    var a := b.allocations[j];
    var b' := ReverseOne(b, a, today).value;
    var posted := Post(b, a.item, b'.items[a.item], PaymentReversed, today).value;
    PostKeeps(b, a.item, b'.items[a.item], PaymentReversed, today);
    assert b' == WithoutAllocation(posted, j);
    WithoutAllocationKeeps(posted, j);
    forall i | 0 <= i < |b.items|
      ensures AllocatedOf(b'.allocations, i) == AllocatedOf(b.allocations, i) + if i == a.item then -a.amount else 0
    {
      AllocatedOfReduced(posted, j, i);
    }
    SettledTogether(b, posted, b', a.item, -a.amount);
  }
}
