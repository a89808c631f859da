/** What a whole payment does to the items: closed forms of explicit allocation and of the waterfall. */
module OwedSettlement {
  import opened OwedBooks
  import opened OwedPayments
  import opened OwedInvariant
  import opened OwedMoves

  /** An item after `delta` has moved from what remains to what is paid; nothing happens when `delta` is zero. */
  function Moved(item: Item, delta: int, today: int): Item {
    if delta == 0 then item
    else
      item.(paid := item.paid + delta, remaining := item.remaining - delta,
            status := CalculateStatus(item.paid + delta, item.remaining - delta), updatedOn := today)
  }

  /** The rows added for a list of grants. */
  function NewAllocations(first: nat, payment: nat, s: seq<Requested>): seq<Allocation> {
    seq(|s|, (k: nat) requires k < |s| => Allocation(first + k, payment, s[k].item, s[k].amount))
  }

  /** `b'` is `b` with the grants of `s` made out of `payment`, each in full, and nothing else changed but the log. */
  ghost predicate Settles(b: Books, b': Books, payment: nat, s: seq<Requested>, today: int) {
    && |b'.items| == |b.items|
    && (forall i :: 0 <= i < |b.items| ==> b'.items[i] == Moved(b.items[i], RequestedFor(i, s), today))
    && b'.allocations == b.allocations + NewAllocations(b.nextAllocation, payment, s)
    && b'.nextAllocation == b.nextAllocation + |s|
    && b'.payments == b.payments && b'.transactions == b.transactions && b'.nextPayment == b.nextPayment
  }

  /** The items can take the grants and the money covers them. */
  ghost predicate Affordable(b: Books, s: seq<Requested>, left: int) {
    && AllPositive(s) && RequestedExist(b, s) && RequestedTotal(s) <= left
    && forall i :: 0 <= i < |b.items| ==> RequestedFor(i, s) <= b.items[i].remaining
  }

  ghost predicate ItemsStand(b: Books) {
    forall i :: 0 <= i < |b.items| ==> ItemBalances(b.items[i]) && ReferencesHold(b, i, b.items[i])
  }

  lemma {:induction false} RequestedFromFront(i: nat, s: seq<Requested>)
    requires |s| > 0
    ensures RequestedFor(i, s) == (if s[0].item == i then s[0].amount else 0) + RequestedFor(i, s[1..])
    ensures RequestedTotal(s) == s[0].amount + RequestedTotal(s[1..])
  {
    if |s| > 1 {
      var init := s[..|s| - 1];
      RequestedFromFront(i, init);
      assert init[1..] == s[1..][..|s| - 2];
    } else {
      assert s[1..] == [] && s[..0] == [];
    }
  }

  lemma {:induction false} RequestedIsPositive(i: nat, s: seq<Requested>)
    requires AllPositive(s)
    ensures 0 <= RequestedFor(i, s) <= RequestedTotal(s)
    ensures RequestedFor(i, s) > 0 <==> exists k :: 0 <= k < |s| && s[k].item == i
  {
    if |s| > 0 {
      var init := s[..|s| - 1];
      RequestedIsPositive(i, init);
      assert forall k :: 0 <= k < |init| ==> init[k] == s[k];
      if RequestedFor(i, s) > 0 && RequestedFor(i, init) == 0 {
        assert s[|s| - 1].item == i;
      }
    }
  }

  lemma {:induction false} MovedTwice(item: Item, a: int, c: int, today: int)
    requires (a >= 0 && c >= 0) || (a <= 0 && c <= 0)
    ensures Moved(Moved(item, a, today), c, today) == Moved(item, a + c, today)
  {
  }

  lemma {:induction false} GrantSettles(b: Books, payment: nat, id: nat, amount: int, left: int, today: int)
    requires ItemsStand(b) && payment in b.payments && id < |b.items| && 0 < amount
    ensures Allocate(b, payment, id, amount, left, today).Ok? <==> amount <= left && amount <= b.items[id].remaining
    ensures Allocate(b, payment, id, amount, left, today).Ok? ==>
      var b' := Allocate(b, payment, id, amount, left, today).value;
      && b'.items == b.items[id := Moved(b.items[id], amount, today)]
      && b'.allocations == b.allocations + [Allocation(b.nextAllocation, payment, id, amount)]
      && b'.nextAllocation == b.nextAllocation + 1
      && b'.payments == b.payments && b'.transactions == b.transactions && b'.nextPayment == b.nextPayment
      && ItemsStand(b')
  {
  }

  /** The totals before a list of grants and after its first are consistent. */
  lemma {:induction false} AffordableAfterOne(b: Books, b': Books, s: seq<Requested>, left: int, today: int)
    requires |s| > 0 && AllPositive(s) && RequestedExist(b, s) && |b'.items| == |b.items|
    requires b'.items == b.items[s[0].item := Moved(b.items[s[0].item], s[0].amount, today)]
    ensures Affordable(b', s[1..], left - s[0].amount) <==> Affordable(b, s, left)
    ensures Affordable(b, s, left) ==> s[0].amount <= left && s[0].amount <= b.items[s[0].item].remaining
  {
    forall i | 0 <= i < |b.items|
      ensures RequestedFor(i, s[1..]) <= b'.items[i].remaining <==> RequestedFor(i, s) <= b.items[i].remaining
      ensures RequestedFor(i, s) >= if s[0].item == i then s[0].amount else 0
    {
      RequestedFromFront(i, s);
      RequestedIsPositive(i, s[1..]);
    }
    RequestedFromFront(0, s);
    RequestedIsPositive(0, s[1..]);
  }

  lemma {:induction false} SettlesInTurn(b: Books, b1: Books, b': Books, payment: nat, s: seq<Requested>, today: int)
    requires |s| > 0 && AllPositive(s) && s[0].item < |b.items| == |b1.items|
    requires b1.items == b.items[s[0].item := Moved(b.items[s[0].item], s[0].amount, today)]
    requires b1.allocations == b.allocations + [Allocation(b.nextAllocation, payment, s[0].item, s[0].amount)]
    requires b1.nextAllocation == b.nextAllocation + 1
    requires b1.payments == b.payments && b1.transactions == b.transactions && b1.nextPayment == b.nextPayment
    requires Settles(b1, b', payment, s[1..], today)
    ensures Settles(b, b', payment, s, today)
  {
    forall i | 0 <= i < |b.items| ensures b'.items[i] == Moved(b.items[i], RequestedFor(i, s), today) {
      RequestedFromFront(i, s);
      RequestedIsPositive(i, s[1..]);
      MovedTwice(b.items[i], s[0].amount, RequestedFor(i, s[1..]), today);
    }
    assert NewAllocations(b.nextAllocation, payment, s)
        == [Allocation(b.nextAllocation, payment, s[0].item, s[0].amount)]
           + NewAllocations(b.nextAllocation + 1, payment, s[1..]);
  }

  /** Grants go through exactly when their totals fit, and then every one is applied in full. */
  lemma {:induction false} GrantsApplyInFull(b: Books, payment: nat, s: seq<Requested>, left: int, today: int)
    requires ItemsStand(b) && payment in b.payments && RequestedExist(b, s) && AllPositive(s) && left >= 0
    ensures ApplyRequested(b, payment, s, left, today).Ok? <==> Affordable(b, s, left)
    ensures Affordable(b, s, left) ==> Settles(b, ApplyRequested(b, payment, s, left, today).value, payment, s, today)
    decreases |s|
  {
    if |s| == 0 {
      forall i | 0 <= i < |b.items| ensures RequestedFor(i, s) <= b.items[i].remaining {
        assert ItemBalances(b.items[i]);
      }
      assert NewAllocations(b.nextAllocation, payment, s) == [];
    } else {
      var id, amount := s[0].item, s[0].amount;
      GrantSettles(b, payment, id, amount, left, today);
      if amount <= left && amount <= b.items[id].remaining {
        var b1 := Allocate(b, payment, id, amount, left, today).value;
        AffordableAfterOne(b, b1, s, left, today);
        GrantsApplyInFull(b1, payment, s[1..], left - amount, today);
        if Affordable(b, s, left) {
          SettlesInTurn(b, b1, ApplyRequested(b, payment, s, left, today).value, payment, s, today);
        }
      } else {
        var b1 := b.(items := b.items[id := Moved(b.items[id], amount, today)]);
        AffordableAfterOne(b, b1, s, left, today);
      }
    }
  }

  // ---------------------------------------------------------------- explicit allocations

  /** Requested items are visible and the person's own, and the totals fit. */
  ghost predicate RequestFits(b: Books, person: string, amount: int, s: seq<Requested>) {
    && (forall k :: 0 <= k < |s| ==> Visible(b, s[k].item) && b.items[s[k].item].person == person)
    && (|s| > 0 ==> RequestedTotal(s) <= amount)
    && (forall k :: 0 <= k < |s| ==> s[k].item < |b.items| && RequestedFor(s[k].item, s) <= b.items[s[k].item].remaining)
  }

  /** The running check accepts exactly the lists whose final totals fit. */
  lemma {:induction false} ValidationIsFinalTotals(b: Books, person: string, amount: int, s: seq<Requested>)
    requires AllPositive(s)
    ensures ValidateRequested(b, person, amount, s).Ok? <==> RequestFits(b, person, amount, s)
  {
    if |s| > 0 {
      var init, last := s[..|s| - 1], s[|s| - 1];
      ValidationIsFinalTotals(b, person, amount, init);
      assert s == init + [last];
      if RequestFits(b, person, amount, s) {
        forall k | 0 <= k < |init|
          ensures Visible(b, init[k].item) && b.items[init[k].item].person == person
          ensures RequestedFor(init[k].item, init) <= b.items[init[k].item].remaining
        {
          assert init[k] == s[k];
        }
      }
      if RequestFits(b, person, amount, init) && ValidateRequested(b, person, amount, s).Ok? {
        forall k | 0 <= k < |s|
          ensures Visible(b, s[k].item) && b.items[s[k].item].person == person
          ensures RequestedFor(s[k].item, s) <= b.items[s[k].item].remaining
        {
          if k < |init| { assert init[k] == s[k]; }
        }
      }
    }
  }

  lemma {:induction false} FittingIsAffordable(b: Books, person: string, amount: int, s: seq<Requested>)
    requires ItemsStand(b) && AllPositive(s) && |s| > 0 && RequestFits(b, person, amount, s)
    ensures RequestedExist(b, s) && Affordable(b, s, amount)
  {
    forall i | 0 <= i < |b.items| ensures RequestedFor(i, s) <= b.items[i].remaining {
      RequestedIsPositive(i, s);
      assert ItemBalances(b.items[i]);
    }
  }

  lemma {:induction false} StandingBooks(b: Books)
    requires Inv(b)
    ensures ItemsStand(b)
  {
  }

  lemma {:induction false} ExplicitSettles(b: Books, p: PaymentDraft, today: int)
    requires Inv(b) && |p.requested| > 0
    ensures SettlePayment(b, p, today).Ok? <==>
      PaymentSchemaAccepts(p) && LinkAccepts(b, p.linked, p.amount) && RequestFits(b, p.person, p.amount, p.requested)
    ensures SettlePayment(b, p, today).Ok? ==>
      Settles(WithPayment(b, p), SettlePayment(b, p, today).value, b.nextPayment, p.requested, today)
  {
    if PaymentSchemaAccepts(p) && LinkAccepts(b, p.linked, p.amount) {
      ValidationIsFinalTotals(b, p.person, p.amount, p.requested);
      if RequestFits(b, p.person, p.amount, p.requested) {
        StandingBooks(b);
        FittingIsAffordable(b, p.person, p.amount, p.requested);
        GrantsStandWithPayment(b, p);
        GrantsApplyInFull(WithPayment(b, p), b.nextPayment, p.requested, p.amount, today);
      }
    }
  }

  lemma {:induction false} RelabellingFitsAlike(b: Books, person: string, amount: int, s: seq<Requested>, today: int)
    ensures RequestFits(Relabelled(b, person, today), person, amount, s) <==> RequestFits(b, person, amount, s)
  {
    var b' := Relabelled(b, person, today);
    assert forall i :: 0 <= i < |b.items| ==> b'.items[i] == b.items[i].(updatedOn := b'.items[i].updatedOn);
    if RequestFits(b, person, amount, s) {
      forall k | 0 <= k < |s| ensures Visible(b', s[k].item) && b'.items[s[k].item].person == person
        && RequestedFor(s[k].item, s) <= b'.items[s[k].item].remaining
      {
        assert Visible(b, s[k].item);
      }
    }
    if RequestFits(b', person, amount, s) {
      forall k | 0 <= k < |s| ensures Visible(b, s[k].item) && b.items[s[k].item].person == person
        && RequestedFor(s[k].item, s) <= b.items[s[k].item].remaining
      {
        assert Visible(b', s[k].item);
      }
    }
  }

  /** A payment with explicit allocations is accepted exactly when the upfront checks pass; then no guard of the
      allocation loop can fire, repeated items included, and every requested amount is applied in full. */
  lemma {:induction false} ExplicitPaymentsApplyInFull(b: Books, p: PaymentDraft, today: int)
    requires Inv(b) && |p.requested| > 0
    ensures RecordPayment(b, p, today).Ok? <==>
      PaymentSchemaAccepts(p) && LinkAccepts(b, p.linked, p.amount) && RequestFits(b, p.person, p.amount, p.requested)
    ensures RecordPayment(b, p, today).Ok? ==>
      Settles(WithPayment(Relabelled(b, p.person, today), p), RecordPayment(b, p, today).value, b.nextPayment,
              p.requested, today)
  {
    RelabelKeeps(b, p.person, today);
    ExplicitSettles(Relabelled(b, p.person, today), p, today);
    RelabellingFitsAlike(b, p.person, p.amount, p.requested, today);
  }

  lemma {:induction false} GrantsStandWithPayment(b: Books, p: PaymentDraft)
    requires ItemsStand(b)
    ensures ItemsStand(WithPayment(b, p))
    ensures forall s, left :: Affordable(b, s, left) ==> Affordable(WithPayment(b, p), s, left)
  {
  }
}
