/** What is owed on a transaction: kept within it by creating and updating items, and raised unchecked when a payment or
    a reversal revives a cancelled item. */
module OwedCapacity {
  import opened Outcomes
  import opened Ordering
  import opened OwedBooks
  import opened OwedPayments
  import opened OwedInvariant
  import opened OwedHistory
  import opened OwedSettlement
  import opened OwedReversal
  import opened OwedWaterfall

  /** What an item takes from its transaction's capacity. */
  function LiveTotal(item: Item, transaction: nat): int {
    if item.linked == Some(transaction) && !item.deleted && !item.status.Cancelled? then item.total else 0
  }

  lemma {:induction false} OwedWithout(items: seq<Item>, transaction: nat, id: nat)
    requires id < |items|
    ensures LinkedOwedTotal(items, transaction, None)
         == LinkedOwedTotal(items, transaction, Some(id)) + LiveTotal(items[id], transaction)
  {
    var init := items[..|items| - 1];
    if id < |init| {
      OwedWithout(init, transaction, id);
    } else {
      NothingExcluded(init, transaction, id);
    }
  }

  lemma {:induction false} NothingExcluded(items: seq<Item>, transaction: nat, id: nat)
    requires |items| <= id
    ensures LinkedOwedTotal(items, transaction, Some(id)) == LinkedOwedTotal(items, transaction, None)
  {
    if |items| > 0 {
      NothingExcluded(items[..|items| - 1], transaction, id);
    }
  }

  lemma {:induction false} ExcludedIsIgnored(items: seq<Item>, transaction: nat, id: nat, item: Item)
    requires id < |items|
    ensures LinkedOwedTotal(items[id := item], transaction, Some(id)) == LinkedOwedTotal(items, transaction, Some(id))
  {
    var init := items[..|items| - 1];
    if id < |init| {
      ExcludedIsIgnored(init, transaction, id, item);
      assert items[id := item][..|items| - 1] == init[id := item];
    } else {
      assert items[id := item][..|items| - 1] == init;
    }
  }

  /** A created item fits: its transaction's live items together stay within the transaction. */
  lemma {:induction false} CreatingStaysWithinCapacity(b: Books, d: ItemDraft, now: int, today: int)
    requires CreateItem(b, d, now, today).Ok? && d.linked.Some?
    ensures d.linked.value in b.transactions
    ensures LinkedOwedTotal(CreateItem(b, d, now, today).value.items, d.linked.value, None)
         == LinkedOwedTotal(b.items, d.linked.value, None) + d.total <= b.transactions[d.linked.value].amount
  {
  }

  /** An updated item that stays live and linked fits too, whatever its amounts, status or link were. */
  lemma {:induction false} UpdatingStaysWithinCapacity(b: Books, id: nat, p: ItemPatch, today: int, t: nat)
    requires UpdateItem(b, id, p, today).Ok?
    requires LiveTotal(UpdateItem(b, id, p, today).value.items[id], t) > 0
    ensures t in b.transactions
    ensures LinkedOwedTotal(UpdateItem(b, id, p, today).value.items, t, None) <= b.transactions[t].amount
  {
    var items := UpdateItem(b, id, p, today).value.items;
    OwedWithout(items, t, id);
    ExcludedIsIgnored(b.items, t, id, items[id]);
  }

  // ---------------------------------------------------------------- revival

  /** Totals of the cancelled items of a transaction among `ids`. */
  function CancelledTotal(items: seq<Item>, ids: set<nat>, t: nat): int {
    if |items| == 0 then 0
    else
      var last := items[|items| - 1];
      CancelledTotal(items[..|items| - 1], ids, t) + if |items| - 1 in ids && IsCancelledOn(last, t) then last.total else 0
  }

  predicate IsCancelledOn(item: Item, t: nat) {
    item.linked == Some(t) && !item.deleted && item.status.Cancelled?
  }

  /** Same terms; an item that was reached is no longer cancelled, and any other stands as it did. */
  ghost predicate RevivedIf(before: Item, after: Item, reached: bool) {
    && after.linked == before.linked && after.deleted == before.deleted && after.total == before.total
    && (after.status.Cancelled? <==> before.status.Cancelled? && !reached)
  }

  lemma {:induction false} RevivalRaisesTotal(items: seq<Item>, items': seq<Item>, ids: set<nat>, t: nat)
    requires |items'| == |items| && forall i: nat :: i < |items| ==> RevivedIf(items[i], items'[i], i in ids)
    ensures LinkedOwedTotal(items', t, None) == LinkedOwedTotal(items, t, None) + CancelledTotal(items, ids, t)
  {
    if |items| > 0 {
      var n := |items| - 1;
      RevivalRaisesTotal(items[..n], items'[..n], ids, t);
      assert RevivedIf(items[n], items'[n], n in ids);
    }
  }

  lemma {:induction false} NothingRevived(items: seq<Item>, ids: set<nat>, t: nat)
    requires forall i :: 0 <= i < |items| ==> items[i].total > 0
    ensures CancelledTotal(items, ids, t) >= 0
    ensures CancelledTotal(items, ids, t) == 0 <==> forall i: nat :: i in ids && i < |items| ==> !IsCancelledOn(items[i], t)
  {
    if |items| > 0 {
      var init := items[..|items| - 1];
      NothingRevived(init, ids, t);
      assert forall i: nat :: i < |init| ==> init[i] == items[i];
    }
  }

  function ItemsAmong(s: seq<Requested>): set<nat> {
    set k | 0 <= k < |s| :: s[k].item
  }

  /** What is owed on a transaction after a payment, told from before it. */
  ghost predicate RaisedBy(b: Books, b': Books, ids: set<nat>, t: nat) {
    && LinkedOwedTotal(b'.items, t, None) == LinkedOwedTotal(b.items, t, None) + CancelledTotal(b.items, ids, t)
    && (LinkedOwedTotal(b'.items, t, None) == LinkedOwedTotal(b.items, t, None) <==>
         forall i: nat :: i in ids && i < |b.items| ==> !IsCancelledOn(b.items[i], t))
    && (t in b.transactions ==>
         (LinkedOwedTotal(b'.items, t, None) <= b.transactions[t].amount <==>
          LinkedOwedTotal(b.items, t, None) + CancelledTotal(b.items, ids, t) <= b.transactions[t].amount))
  }

  lemma {:induction false} SettlingRevives(b: Books, p: PaymentDraft, today: int, i: nat)
    requires Inv(b) && RecordPayment(b, p, today).Ok? && i < |b.items|
    ensures |RecordPayment(b, p, today).value.items| == |b.items|
    ensures RevivedIf(b.items[i], RecordPayment(b, p, today).value.items[i], i in ItemsAmong(GrantsOf(b, p)))
  {
    var s := GrantsOf(b, p);
    PaymentSettlesGrants(b, p, today);
    RequestedIsPositive(i, s);
    assert i in ItemsAmong(s) <==> exists k :: 0 <= k < |s| && s[k].item == i;
  }

  /** Automatic payments reach no cancelled item. */
  lemma {:induction false} OnlyRequestsReachCancelled(b: Books, p: PaymentDraft, t: nat)
    requires Inv(b)
    ensures CancelledTotal(b.items, ItemsAmong(GrantsOf(b, p)), t) == CancelledTotal(b.items, ItemsAmong(p.requested), t)
  {
    if |p.requested| == 0 {
      forall i | 0 <= i < |b.items| ensures b.items[i].total > 0 { assert ItemBalances(b.items[i]); }
      PlannedAreOpen(b, p);
      NothingRevived(b.items, ItemsAmong(GrantsOf(b, p)), t);
      NothingRevived(b.items, ItemsAmong(p.requested), t);
    }
  }

  /** A payment raises what is owed on a transaction by the totals of the cancelled items of it that the request names:
      the total stays exactly when it names none, and within the transaction exactly when it still fits with them. */
  lemma {:induction false} PaymentsRaiseLinkedTotals(b: Books, p: PaymentDraft, today: int, t: nat)
    requires Inv(b) && RecordPayment(b, p, today).Ok?
    ensures RaisedBy(b, RecordPayment(b, p, today).value, ItemsAmong(p.requested), t)
  {
    var b' := RecordPayment(b, p, today).value;
    PaymentSettlesGrants(b, p, today);
    forall i: nat | i < |b.items| ensures RevivedIf(b.items[i], b'.items[i], i in ItemsAmong(GrantsOf(b, p))) {
      SettlingRevives(b, p, today, i);
    }
    RevivalRaisesTotal(b.items, b'.items, ItemsAmong(GrantsOf(b, p)), t);
    OnlyRequestsReachCancelled(b, p, t);
    forall i | 0 <= i < |b.items| ensures b.items[i].total > 0 { assert ItemBalances(b.items[i]); }
    NothingRevived(b.items, ItemsAmong(p.requested), t);
  }

  /** The items a payment has been allocated to. */
  function ItemsPaidBy(b: Books, payment: nat): set<nat> {
    set k | 0 <= k < |b.allocations| && b.allocations[k].payment == payment :: b.allocations[k].item
  }

  lemma {:induction false} AllocatedWhenListed(s: seq<Allocation>, i: nat)
    requires PositiveRows(s)
    ensures AllocatedOf(s, i) >= 0
    ensures AllocatedOf(s, i) > 0 <==> exists k :: 0 <= k < |s| && s[k].item == i
    decreases |s|
  {
    if |s| > 0 {
      AllocatedFromFront(s, i);
      AllocatedWhenListed(s[1..], i);
      assert forall k :: 0 < k < |s| ==> s[1..][k - 1] == s[k];
    }
  }

  lemma {:induction false} PaidItemsAreAllocated(b: Books, payment: nat, i: nat)
    requires AllocationsStand(b)
    ensures AllocatedOf(Keep(OfPayments([payment]), b.allocations), i) >= 0
    ensures AllocatedOf(Keep(OfPayments([payment]), b.allocations), i) > 0 <==> i in ItemsPaidBy(b, payment)
  {
    var s := Keep(OfPayments([payment]), b.allocations);
    RowsArePositive(b, OfPayments([payment]));
    AllocatedWhenListed(s, i);
    KeepMembers(OfPayments([payment]), b.allocations);
    if i in ItemsPaidBy(b, payment) {
      var k :| 0 <= k < |b.allocations| && b.allocations[k].payment == payment && b.allocations[k].item == i;
      assert b.allocations[k] in s;
    }
    if k :| 0 <= k < |s| && s[k].item == i {
      assert s[k] in s;
      assert s[k] in b.allocations && s[k].payment == payment;
    }
  }

  /** A reversal raises what is owed on a transaction by the totals of its cancelled items that the payment was
      allocated to, under the same conditions. */
  lemma {:induction false} ReversalsRaiseLinkedTotals(b: Books, payment: nat, today: int, t: nat)
    requires Inv(b) && DeletePayment(b, payment, today).Ok?
    ensures RaisedBy(b, DeletePayment(b, payment, today).value, ItemsPaidBy(b, payment), t)
  {
    var b' := DeletePayment(b, payment, today).value;
    SteadyBooks(b);
    DeletionGivesBack(b, payment, today);
    forall i: nat | i < |b.items| ensures RevivedIf(b.items[i], b'.items[i], i in ItemsPaidBy(b, payment)) {
      PaidItemsAreAllocated(b, payment, i);
    }
    RevivalRaisesTotal(b.items, b'.items, ItemsPaidBy(b, payment), t);
    forall i | 0 <= i < |b.items| ensures b.items[i].total > 0 { assert ItemBalances(b.items[i]); }
    NothingRevived(b.items, ItemsPaidBy(b, payment), t);
  }

  // ---------------------------------------------------------------- a reachable overcommitment

  const OVERCOMMITTING := [
    Op(SaveTransaction(0, Transaction(MoneyOut, 100, 1)), 0, 1),
    Op(Create(ItemDraft("Ana", 100, 0, None, Some(0), "manual", None)), 0, 1),
    Op(Update(0, ItemPatch(None, None, None, Some(Cancelled), Unset, Unset)), 0, 1),
    Op(Create(ItemDraft("Bea", 100, 0, None, Some(0), "manual", None)), 0, 1)]

  const ANA := Item("Ana", 100, 0, 100, Open, Some(0), Some(Derived(0, "Ana", "manual")), 0, 1, false)
  const BEA := ANA.(person := "Bea", dedupe := Some(Derived(0, "Bea", "manual")))

  function WithItems(items: seq<Item>, events: seq<OwedEvent>): Books {
    EMPTY_BOOKS.(transactions := map[0 := Transaction(MoneyOut, 100, 1)], items := items, events := events)
  }

  lemma {:induction false} RunUpTo(ops: seq<Op>, k: nat)
    requires k < |ops|
    ensures Run(EMPTY_BOOKS, ops[..k + 1]) == After(Run(EMPTY_BOOKS, ops[..k]), ops[k])
  {
    assert ops[..k + 1][..k] == ops[..k];
  }

  lemma {:induction false} AnaIsCreated()
    ensures After(WithItems([], []), OVERCOMMITTING[1]) == WithItems([ANA], [EventFor(0, ANA, Created, 1)])
  {
  }

  lemma {:induction false} AnaIsCancelled()
    ensures var created := [EventFor(0, ANA, Created, 1)];
      After(WithItems([ANA], created), OVERCOMMITTING[2])
      == WithItems([ANA.(status := Cancelled)], created + [EventFor(0, ANA.(status := Cancelled), Cancellation, 1)])
  {
  }

  lemma {:induction false} BeaIsCreated(events: seq<OwedEvent>)
    ensures After(WithItems([ANA.(status := Cancelled)], events), OVERCOMMITTING[3])
         == WithItems([ANA.(status := Cancelled), BEA], events + [EventFor(1, BEA, Created, 1)])
  {
    var items := [ANA.(status := Cancelled)];
    assert items[..0] == [];
    assert LinkedOwedTotal(items, 0, None) == 0;
  }

  lemma {:induction false} ReachAna()
    ensures Run(EMPTY_BOOKS, OVERCOMMITTING[..2]) == WithItems([ANA], [EventFor(0, ANA, Created, 1)])
  {
    RunUpTo(OVERCOMMITTING, 0);
    RunUpTo(OVERCOMMITTING, 1);
    AnaIsCreated();
  }

  lemma {:induction false} ReachCancelled()
    ensures Run(EMPTY_BOOKS, OVERCOMMITTING[..3])
         == WithItems([ANA.(status := Cancelled)],
                      [EventFor(0, ANA, Created, 1)] + [EventFor(0, ANA.(status := Cancelled), Cancellation, 1)])
  {
    ReachAna();
    RunUpTo(OVERCOMMITTING, 2);
    AnaIsCancelled();
  }

  lemma {:induction false} BothAreCreated()
    ensures Run(EMPTY_BOOKS, OVERCOMMITTING).items == [ANA.(status := Cancelled), BEA]
    ensures Run(EMPTY_BOOKS, OVERCOMMITTING).transactions == map[0 := Transaction(MoneyOut, 100, 1)]
  {
    ReachCancelled();
    RunUpTo(OVERCOMMITTING, 3);
    assert OVERCOMMITTING[..4] == OVERCOMMITTING;
    BeaIsCreated([EventFor(0, ANA, Created, 1)] + [EventFor(0, ANA.(status := Cancelled), Cancellation, 1)]);
  }

  /** The bound does fail: two items of 100 on a transaction of 100, one of them cancelled, and 10 paid towards that one. */
  lemma {:induction false} PaymentsCanOvercommit()
    ensures var b := Run(EMPTY_BOOKS, OVERCOMMITTING);
      var paid := RecordPayment(b, PaymentDraft("Ana", 1, 10, None, None, [Requested(0, 10)]), 1);
      && paid.Ok? && 0 in b.transactions && b.transactions[0].amount == 100
      && LinkedOwedTotal(b.items, 0, None) == 100 && LinkedOwedTotal(paid.value.items, 0, None) == 200
  {
    var b, s := Run(EMPTY_BOOKS, OVERCOMMITTING), [Requested(0, 10)];
    var p := PaymentDraft("Ana", 1, 10, None, None, s);
    BothAreCreated();
    EveryReachableStateIsSound(OVERCOMMITTING);
    assert s[..0] == [] && RequestedTotal(s) == 10 && RequestedFor(0, s) == 10;
    assert RequestFits(b, "Ana", 10, s);
    ExplicitPaymentsApplyInFull(b, p, 1);
    PaymentsRaiseLinkedTotals(b, p, 1, 0);
    TotalsOfBoth(b.items, ItemsAmong(s));
  }

  lemma {:induction false} TotalsOfBoth(items: seq<Item>, ids: set<nat>)
    requires items == [ANA.(status := Cancelled), BEA] && 0 in ids
    ensures LinkedOwedTotal(items, 0, None) == 100 && CancelledTotal(items, ids, 0) == 100
  {
    var one := items[..1];
    assert one == [ANA.(status := Cancelled)] && one[..0] == [];
    assert LinkedOwedTotal(one, 0, None) == 0 && CancelledTotal(one, ids, 0) == 100;
  }
}
