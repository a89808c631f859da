/** Every command preserves whatever the moves preserve, so every run of commands is sound. */
module OwedRuns {
  import opened Outcomes
  import opened Ordering
  import opened OwedBooks
  import opened OwedPayments
  import opened OwedInvariant
  import opened OwedMoves

  // ---------------------------------------------------------------- items and payments

  lemma {:induction false} CreatePreserves(inv: Books -> bool, b: Books, d: ItemDraft, now: int, today: int)
    requires Closed(inv) && inv(b) && CreateItem(b, d, now, today).Ok?
    ensures inv(CreateItem(b, d, now, today).value)
  {
    var b' := CreateItem(b, d, now, today).value;
    var m := AddItem(b'.items[|b.items|], EffectiveDate(b, d, today));
    assert Enabled(b, m) && Play(b, m) == b';
  }

  lemma {:induction false} DeletePreserves(inv: Books -> bool, b: Books, id: nat, today: int)
    requires Closed(inv) && inv(b) && ItemsBalance(b) && DeleteItem(b, id, today).Ok?
    ensures inv(DeleteItem(b, id, today).value)
  {
    var m := Repost(id, b.items[id].(deleted := true, updatedOn := today), Deletion, today);
    assert inv(Play(b, m));
  }

  ghost predicate RequestedVisible(b: Books, s: seq<Requested>) {
    forall i :: 0 <= i < |s| ==> Visible(b, s[i].item)
  }

  ghost predicate AllVisible(b: Books, ids: seq<nat>) {
    forall i :: 0 <= i < |ids| ==> Visible(b, ids[i])
  }

  ghost predicate SameVisible(b: Books, b': Books) {
    |b'.items| == |b.items| && forall i :: 0 <= i < |b.items| ==> b'.items[i].deleted == b.items[i].deleted
  }

  /** A property of the tables and the unspent part of a payment that no allocation of it can break. */
  ghost predicate ClosedUnderGrants(step: (Books, int) -> bool, payment: nat) {
    forall b, id, amount, left, today ::
      step(b, left) && payment in b.payments && Visible(b, id) && Allocate(b, payment, id, amount, left, today).Ok?
      ==> step(Allocate(b, payment, id, amount, left, today).value, left - amount)
  }

  lemma {:induction false} ApplyRequestedPreserves(step: (Books, int) -> bool, b: Books, payment: nat, s: seq<Requested>,
                                                   left: int, today: int)
    requires ClosedUnderGrants(step, payment) && step(b, left)
    requires payment in b.payments && RequestedExist(b, s) && RequestedVisible(b, s)
    requires ApplyRequested(b, payment, s, left, today).Ok?
    ensures exists rest :: step(ApplyRequested(b, payment, s, left, today).value, rest)
    decreases |s|
  {
    if |s| > 0 {
      var b1 := Allocate(b, payment, s[0].item, s[0].amount, left, today).value;
      assert step(b1, left - s[0].amount);
      assert SameVisible(b, b1);
      ApplyRequestedPreserves(step, b1, payment, s[1..], left - s[0].amount, today);
    }
  }

  lemma {:induction false} WaterfallPreserves(step: (Books, int) -> bool, b: Books, payment: nat, ids: seq<nat>,
                                              stop: Option<nat>, left: int, today: int)
    requires ClosedUnderGrants(step, payment) && step(b, left)
    requires payment in b.payments && AllExist(b, ids) && AllVisible(b, ids)
    requires Waterfall(b, payment, ids, stop, left, today).Ok?
    ensures exists rest :: step(Waterfall(b, payment, ids, stop, left, today).value, rest)
    decreases |ids|
  {
    if |ids| > 0 && stop != Some(ids[0]) && left > 0 {
      var amount := if left <= b.items[ids[0]].remaining then left else b.items[ids[0]].remaining;
      var b1 := Allocate(b, payment, ids[0], amount, left, today).value;
      assert step(b1, left - amount);
      assert SameVisible(b, b1);
      WaterfallPreserves(step, b1, payment, ids[1..], stop, left - amount, today);
    }
  }

  /** While a payment is being spent: `inv`, and what is allocated plus `left` is the payment. */
  ghost predicate Spending(inv: Books -> bool, payment: nat, b: Books, left: int) {
    inv(b) && Unspent(b, payment, left)
  }

  lemma {:induction false} SpendingIsClosed(inv: Books -> bool, payment: nat)
    requires Closed(inv)
    ensures ClosedUnderGrants((b, left) => Spending(inv, payment, b, left), payment)
  {
    forall b, id, amount, left, today |
        Spending(inv, payment, b, left) && Visible(b, id) && Allocate(b, payment, id, amount, left, today).Ok?
      ensures Spending(inv, payment, Allocate(b, payment, id, amount, left, today).value, left - amount)
    {
      assert Allocate(b, payment, id, amount, left, today) == Allocate(b, payment, id, amount, amount, today);
      assert inv(Play(b, Grant(payment, id, amount, today)));
      AllocatedFromExtended(b, payment, id, amount, payment);
    }
  }

  lemma {:induction false} ValidatedItemsAreVisible(b: Books, person: string, amount: int, s: seq<Requested>)
    requires ValidateRequested(b, person, amount, s).Ok?
    ensures RequestedVisible(b, s)
  {
    if |s| > 0 {
      ValidatedItemsAreVisible(b, person, amount, s[..|s| - 1]);
    }
  }

  /** New payments find no allocations: the tables hold none for an unused payment id. */
  ghost predicate PaymentIdsAreFresh(b: Books) {
    AllocationsStand(b) && PaymentsCover(b)
  }

  lemma {:induction false} SettlePreserves(inv: Books -> bool, b: Books, p: PaymentDraft, today: int)
    requires Closed(inv) && inv(b) && PaymentIdsAreFresh(b) && SettlePayment(b, p, today).Ok?
    ensures inv(SettlePayment(b, p, today).value)
  {
    var paid := WithPayment(b, p);
    assert inv(Play(b, AddPayment(p)));
    NothingAllocatedYet(b, b.nextPayment);
    assert Unspent(paid, b.nextPayment, p.amount);
    var step := (x, left) => Spending(inv, b.nextPayment, x, left);
    SpendingIsClosed(inv, b.nextPayment);
    if |p.requested| > 0 {
      ValidatedItemsAreVisible(b, p.person, p.amount, p.requested);
      ValidatedItemsExist(b, p.person, p.amount, p.requested);
      ApplyRequestedPreserves(step, paid, b.nextPayment, p.requested, p.amount, today);
    } else {
      OpenItemsExist(b.items, p.person);
      WaterfallPreserves(step, paid, b.nextPayment, ListOpenByPerson(b.items, p.person), p.stopBefore, p.amount, today);
    }
  }

  lemma {:induction false} RecordPreserves(inv: Books -> bool, b: Books, p: PaymentDraft, today: int)
    requires Closed(inv) && inv(b) && PaymentIdsAreFresh(b) && RecordPayment(b, p, today).Ok?
    ensures inv(RecordPayment(b, p, today).value)
  {
    var b' := Relabelled(b, p.person, today);
    assert inv(Play(b, Relabel(p.person, today)));
    forall j | 0 <= j < |b'.allocations| ensures AllocationStands(b', b'.allocations[j]) {
      assert AllocationStands(b, b.allocations[j]);
    }
    SettlePreserves(inv, b', p, today);
  }

  // ---------------------------------------------------------------- reversal

  /** `s` lists distinct live allocations. */
  ghost predicate LiveAllocations(b: Books, s: seq<Allocation>) {
    && (forall k :: 0 <= k < |s| ==> s[k] in b.allocations)
    && (forall i, k :: 0 <= i < k < |s| ==> s[i].id != s[k].id)
  }

  lemma {:induction false} LiveAfterOne(b: Books, s: seq<Allocation>, today: int)
    requires LiveAllocations(b, s) && |s| > 0 && ReverseOne(b, s[0], today).Ok?
    ensures LiveAllocations(ReverseOne(b, s[0], today).value, s[1..])
  {
    KeepMembers(OtherThan(s[0].id), b.allocations);
  }

  /** Allocations outside `s`. */
  function NotAmong(s: seq<Allocation>): Allocation -> bool {
    (a: Allocation) => forall k | 0 <= k < |s| :: s[k].id != a.id
  }

  lemma {:induction false} NotAmongSplits(s: seq<Allocation>, all: seq<Allocation>)
    requires |s| > 0
    ensures Keep(NotAmong(s[1..]), Keep(OtherThan(s[0].id), all)) == Keep(NotAmong(s), all)
  {
    forall a: Allocation ensures NotAmong(s)(a) <==> NotAmong(s[1..])(a) && OtherThan(s[0].id)(a) {
      if NotAmong(s[1..])(a) && OtherThan(s[0].id)(a) {
        forall k | 0 <= k < |s| ensures s[k].id != a.id { assert k > 0 ==> s[1..][k - 1] == s[k]; }
      }
    }
    KeepTwice(NotAmong(s[1..]), OtherThan(s[0].id), NotAmong(s), all);
  }

  lemma {:induction false} ReverseAllRemoves(b: Books, s: seq<Allocation>, today: int)
    requires ReverseAll(b, s, today).Ok?
    ensures ReverseAll(b, s, today).value.allocations == Keep(NotAmong(s), b.allocations)
    decreases |s|
  {
    if |s| == 0 {
      KeepEverything(NotAmong(s), b.allocations);
    } else {
      ReverseAllRemoves(ReverseOne(b, s[0], today).value, s[1..], today);
      NotAmongSplits(s, b.allocations);
    }
  }

  lemma {:induction false} ReverseAllPreserves(inv: Books -> bool, b: Books, s: seq<Allocation>, today: int)
    requires Closed(inv) && inv(b) && LiveAllocations(b, s) && ReverseAll(b, s, today).Ok?
    ensures inv(ReverseAll(b, s, today).value)
    decreases |s|
  {
    if |s| > 0 {
      assert inv(Play(b, Unwind(s[0], today)));
      LiveAfterOne(b, s, today);
      ReverseAllPreserves(inv, ReverseOne(b, s[0], today).value, s[1..], today);
    }
  }

  function NotOfPayment(payment: nat): Allocation -> bool {
    (a: Allocation) => a.payment != payment
  }

  lemma {:induction false} PaymentsAllocationsAreLive(b: Books, payment: nat)
    requires AllocationsStand(b)
    ensures LiveAllocations(b, Keep(OfPayment(payment), b.allocations))
    ensures Keep(NotAmong(Keep(OfPayment(payment), b.allocations)), b.allocations)
         == Keep(NotOfPayment(payment), b.allocations)
  {
    var s := Keep(OfPayment(payment), b.allocations);
    KeepMembers(OfPayment(payment), b.allocations);
    DistinctIds(OfPayment(payment), b.allocations);
    forall k | 0 <= k < |s| ensures s[k] in b.allocations { assert s[k] in s; }
    forall a | a in b.allocations ensures NotAmong(s)(a) <==> NotOfPayment(payment)(a) {
      SameIdSameRow(b, a, s);
      if a.payment == payment { assert a in s; }
    }
    KeepEverything((a: Allocation) => true, b.allocations);
    KeepTwice(NotAmong(s), (a: Allocation) => true, NotOfPayment(payment), b.allocations);
  }

  lemma {:induction false} SameIdSameRow(b: Books, a: Allocation, s: seq<Allocation>)
    requires AllocationsStand(b) && a in b.allocations && forall k :: 0 <= k < |s| ==> s[k] in b.allocations
    ensures forall k :: 0 <= k < |s| && s[k].id == a.id ==> s[k] == a
  {
  }

  lemma {:induction false} DistinctIds(p: Allocation -> bool, s: seq<Allocation>)
    requires forall i, k :: 0 <= i < k < |s| ==> s[i].id != s[k].id
    ensures forall i, k :: 0 <= i < k < |Keep(p, s)| ==> Keep(p, s)[i].id != Keep(p, s)[k].id
  {
    if |s| > 0 {
      var init := s[..|s| - 1];
      DistinctIds(p, init);
      KeepMembers(p, init);
      forall i | 0 <= i < |Keep(p, init)| ensures Keep(p, init)[i].id != s[|s| - 1].id {
        assert Keep(p, init)[i] in init;
      }
    }
  }

  lemma {:induction false} DeletePaymentPreserves(inv: Books -> bool, b: Books, payment: nat, today: int)
    requires Closed(inv) && inv(b) && AllocationsStand(b) && DeletePayment(b, payment, today).Ok?
    ensures inv(DeletePayment(b, payment, today).value)
    ensures DeletePayment(b, payment, today).value.allocations == Keep(NotOfPayment(payment), b.allocations)
  {
    var s := Keep(OfPayment(payment), b.allocations);
    PaymentsAllocationsAreLive(b, payment);
    ReverseAllPreserves(inv, b, s, today);
    ReverseAllRemoves(b, s, today);
    KeepAll(NotOfPayment(payment), b.allocations);
    var b1 := ReverseAll(b, s, today).value;
    assert Enabled(b1, DropPayment(payment));
    assert inv(Play(b1, DropPayment(payment)));
  }
}
