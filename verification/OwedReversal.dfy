/** Deleting payments: what it restores, when it is possible, and why the order does not matter. */
module OwedReversal {
  import opened Outcomes
  import opened Ordering
  import opened OwedBooks
  import opened OwedPayments
  import opened OwedInvariant
  import opened OwedRuns
  import opened OwedHistory
  import opened OwedSettlement
  import opened OwedWaterfall

  ghost predicate SameOtherwise(b: Books, b': Books) {
    b'.transactions == b.transactions && b'.nextPayment == b.nextPayment && b'.nextAllocation == b.nextAllocation
  }

  /** Every item has given back what the rows of `s` took from it. */
  ghost predicate GivenBack(b: Books, b': Books, s: seq<Allocation>, today: int) {
    && |b'.items| == |b.items|
    && forall i :: 0 <= i < |b.items| ==> b'.items[i] == Moved(b.items[i], -AllocatedOf(s, i), today)
  }

  ghost predicate ShowsAll(b: Books, s: seq<Allocation>) {
    forall k :: 0 <= k < |s| ==> Visible(b, s[k].item)
  }

  ghost predicate PaidCovers(b: Books, s: seq<Allocation>) {
    forall i :: 0 <= i < |b.items| ==> AllocatedOf(s, i) <= b.items[i].paid
  }

  /** The rows can be given back: their items are visible and have that much paid. */
  ghost predicate Returnable(b: Books, s: seq<Allocation>) {
    ShowsAll(b, s) && PaidCovers(b, s)
  }

  ghost predicate PositiveRows(s: seq<Allocation>) {
    forall k :: 0 <= k < |s| ==> s[k].amount > 0
  }

  lemma {:induction false} AllocatedFromFront(s: seq<Allocation>, i: nat)
    requires |s| > 0
    ensures AllocatedOf(s, i) == (if s[0].item == i then s[0].amount else 0) + AllocatedOf(s[1..], i)
  {
    assert s == [s[0]] + s[1..];
    KeepAppend(OfItem(i), [s[0]], s[1..]);
    KeepOne(OfItem(i), s[0]);
    TotalAppend(Keep(OfItem(i), [s[0]]), Keep(OfItem(i), s[1..]));
    TotalOfOne(s[0]);
  }

  lemma {:induction false} AllocatedIsPositive(s: seq<Allocation>, i: nat)
    requires PositiveRows(s)
    ensures AllocatedOf(s, i) >= 0
    decreases |s|
  {
    if |s| > 0 {
      AllocatedFromFront(s, i);
      AllocatedIsPositive(s[1..], i);
    }
  }

  lemma {:induction false} ReversalGivesBack(b: Books, a: Allocation, today: int)
    requires ItemsStand(b) && a.amount > 0
    ensures ReverseOne(b, a, today).Ok? <==> Visible(b, a.item) && a.amount <= b.items[a.item].paid
    ensures ReverseOne(b, a, today).Ok? ==>
      var b' := ReverseOne(b, a, today).value;
      && b'.items == b.items[a.item := Moved(b.items[a.item], -a.amount, today)] && b'.payments == b.payments
      && SameOtherwise(b, b') && ItemsStand(b')
  {
  }

  lemma {:induction false} CoveredAfterOne(b: Books, b1: Books, s: seq<Allocation>, today: int)
    requires |s| > 0 && PositiveRows(s) && s[0].item < |b.items|
    requires b1.items == b.items[s[0].item := Moved(b.items[s[0].item], -s[0].amount, today)]
    ensures PaidCovers(b1, s[1..]) <==> PaidCovers(b, s)
    ensures PaidCovers(b, s) ==> s[0].amount <= b.items[s[0].item].paid
  {
    forall i: nat | i < |b.items|
      ensures AllocatedOf(s[1..], i) <= b1.items[i].paid <==> AllocatedOf(s, i) <= b.items[i].paid
      ensures AllocatedOf(s, i) >= if s[0].item == i then s[0].amount else 0
    {
      AllocatedFromFront(s, i);
      AllocatedIsPositive(s[1..], i);
    }
  }

  lemma {:induction false} ShownAfterOne(b: Books, b1: Books, s: seq<Allocation>)
    requires |s| > 0 && Visible(b, s[0].item) && |b1.items| == |b.items|
    requires forall i :: 0 <= i < |b.items| ==> b1.items[i].deleted == b.items[i].deleted
    ensures ShowsAll(b1, s[1..]) <==> ShowsAll(b, s)
  {
    if ShowsAll(b, s) {
      forall k | 0 <= k < |s[1..]| ensures Visible(b1, s[1..][k].item) { assert Visible(b, s[k + 1].item); }
    }
    if ShowsAll(b1, s[1..]) {
      forall k | 0 <= k < |s| ensures Visible(b, s[k].item) {
        if k > 0 { assert Visible(b1, s[1..][k - 1].item); }
      }
    }
  }

  lemma {:induction false} ReturnableAfterOne(b: Books, b1: Books, s: seq<Allocation>, today: int)
    requires |s| > 0 && PositiveRows(s) && Visible(b, s[0].item)
    requires b1.items == b.items[s[0].item := Moved(b.items[s[0].item], -s[0].amount, today)]
    ensures Returnable(b1, s[1..]) <==> Returnable(b, s)
    ensures Returnable(b, s) ==> s[0].amount <= b.items[s[0].item].paid
  {
    CoveredAfterOne(b, b1, s, today);
    ShownAfterOne(b, b1, s);
  }

  lemma {:induction false} GivenBackInTurn(b: Books, b1: Books, b': Books, s: seq<Allocation>, today: int)
    requires |s| > 0 && PositiveRows(s) && s[0].item < |b.items|
    requires b1.items == b.items[s[0].item := Moved(b.items[s[0].item], -s[0].amount, today)]
    requires GivenBack(b1, b', s[1..], today)
    ensures GivenBack(b, b', s, today)
  {
    forall i | 0 <= i < |b.items| ensures b'.items[i] == Moved(b.items[i], -AllocatedOf(s, i), today) {
      AllocatedFromFront(s, i);
      AllocatedIsPositive(s[1..], i);
      if i == s[0].item { MovedTwice(b.items[i], -s[0].amount, -AllocatedOf(s[1..], i), today); }
    }
  }

  /** A list of reversals goes through exactly when its totals can be given back, and then gives back exactly those. */
  lemma {:induction false} ReversalsGiveBack(b: Books, s: seq<Allocation>, today: int)
    requires ItemsStand(b) && PositiveRows(s)
    ensures ReverseAll(b, s, today).Ok? <==> Returnable(b, s)
    ensures ReverseAll(b, s, today).Ok? ==>
      var b' := ReverseAll(b, s, today).value;
      GivenBack(b, b', s, today) && b'.payments == b.payments && SameOtherwise(b, b') && ItemsStand(b')
    decreases |s|
  {
    if |s| == 0 {
      forall i | 0 <= i < |b.items| ensures AllocatedOf(s, i) <= b.items[i].paid { assert ItemBalances(b.items[i]); }
    } else {
      ReversalGivesBack(b, s[0], today);
      if Visible(b, s[0].item) {
        var b1 := b.(items := b.items[s[0].item := Moved(b.items[s[0].item], -s[0].amount, today)]);
        ReturnableAfterOne(b, b1, s, today);
        if s[0].amount <= b.items[s[0].item].paid {
          var b2 := ReverseOne(b, s[0], today).value;
          ReturnableAfterOne(b, b2, s, today);
          ReversalsGiveBack(b2, s[1..], today);
          if ReverseAll(b, s, today).Ok? { GivenBackInTurn(b, b2, ReverseAll(b, s, today).value, s, today); }
        }
      }
    }
  }

  lemma {:induction false} RowsArePositive(b: Books, p: Allocation -> bool)
    requires AllocationsStand(b)
    ensures PositiveRows(Keep(p, b.allocations))
  {
    var s := Keep(p, b.allocations);
    KeepMembers(p, b.allocations);
    forall k | 0 <= k < |s| ensures s[k].amount > 0 {
      assert s[k] in b.allocations;
      var j :| 0 <= j < |b.allocations| && b.allocations[j] == s[k];
      assert AllocationStands(b, b.allocations[j]);
    }
  }

  /** The part of the invariant that deletions rely on. */
  ghost predicate Steady(b: Books) {
    ItemsStand(b) && AllocationsStand(b)
  }

  /** `b'` is `b` with the payments `ps` gone, their rows removed and given back; the log aside. */
  ghost predicate Undone(b: Books, b': Books, ps: seq<nat>, today: int) {
    && GivenBack(b, b', Keep(OfPayments(ps), b.allocations), today)
    && b'.allocations == Keep(NotOfPayments(ps), b.allocations)
    && b'.payments == b.payments - Among(ps)
    && SameOtherwise(b, b')
  }

  ghost predicate AllDeletable(b: Books, ps: seq<nat>) {
    && Distinct(ps)
    && (forall k :: 0 <= k < |ps| ==> ps[k] in b.payments)
    && Returnable(b, Keep(OfPayments(ps), b.allocations))
  }

  ghost function Among(ps: seq<nat>): set<nat> {
    set p | p in ps
  }

  function OfPayments(ps: seq<nat>): Allocation -> bool {
    (a: Allocation) => a.payment in ps
  }

  function NotOfPayments(ps: seq<nat>): Allocation -> bool {
    (a: Allocation) => a.payment !in ps
  }

  lemma {:induction false} OfOnePayment(s: seq<Allocation>, payment: nat)
    ensures Keep(OfPayments([payment]), s) == Keep(OfPayment(payment), s)
    ensures Keep(NotOfPayments([payment]), s) == Keep(NotOfPayment(payment), s)
    ensures Among([payment]) == {payment}
  {
    KeepAgree(OfPayments([payment]), OfPayment(payment), s);
    KeepAgree(NotOfPayments([payment]), NotOfPayment(payment), s);
  }

  lemma {:induction false} AllocationsStandWithout(b: Books, b': Books, payment: nat)
    requires AllocationsStand(b) && b'.allocations == Keep(NotOfPayment(payment), b.allocations)
    requires b'.payments == b.payments - {payment} && |b'.items| == |b.items| && b'.nextAllocation == b.nextAllocation
    ensures AllocationsStand(b')
  {
    DistinctIds(NotOfPayment(payment), b.allocations);
    KeepMembers(NotOfPayment(payment), b.allocations);
    forall j | 0 <= j < |b'.allocations| ensures AllocationStands(b', b'.allocations[j]) {
      assert b'.allocations[j] in b'.allocations;
      var i :| 0 <= i < |b.allocations| && b.allocations[i] == b'.allocations[j];
      assert AllocationStands(b, b.allocations[i]);
    }
  }

  /** Deleting a payment is possible exactly when the payment exists and its rows can be given back; it gives back
      exactly those and forgets the payment. */
  lemma {:induction false} DeletionGivesBack(b: Books, payment: nat, today: int)
    requires Steady(b)
    ensures DeletePayment(b, payment, today).Ok? <==> AllDeletable(b, [payment])
    ensures DeletePayment(b, payment, today).Ok? ==>
      Undone(b, DeletePayment(b, payment, today).value, [payment], today) && Steady(DeletePayment(b, payment, today).value)
  {
    var s := Keep(OfPayment(payment), b.allocations);
    OfOnePayment(b.allocations, payment);
    RowsArePositive(b, OfPayment(payment));
    ReversalsGiveBack(b, s, today);
    if DeletePayment(b, payment, today).Ok? {
      var b' := DeletePayment(b, payment, today).value;
      PaymentsAllocationsAreLive(b, payment);
      ReverseAllRemoves(b, s, today);
      AllocationsStandWithout(b, b', payment);
      ItemsStandWith(ReverseAll(b, s, today).value, b');
    }
  }

  lemma {:induction false} ItemsStandWith(b: Books, b': Books)
    requires ItemsStand(b) && b'.items == b.items && b'.transactions == b.transactions
    ensures ItemsStand(b')
  {
  }

  // ---------------------------------------------------------------- several payments

  function DeletePayments(b: Books, ps: seq<nat>, today: int): Result<Books>
    decreases |ps|
  {
    if |ps| == 0 then Ok(b)
    else
      var b' :- DeletePayment(b, ps[0], today);
      DeletePayments(b', ps[1..], today)
  }

  lemma {:induction false} SumsSplit(p: Allocation -> bool, q: Allocation -> bool, r: Allocation -> bool,
                                     s: seq<Allocation>, i: nat)
    requires forall k :: 0 <= k < |s| ==> (p(s[k]) <==> q(s[k]) || r(s[k])) && !(q(s[k]) && r(s[k]))
    ensures AllocatedOf(Keep(p, s), i) == AllocatedOf(Keep(q, s), i) + AllocatedOf(Keep(r, s), i)
  {
    if |s| > 0 {
      SumsSplit(p, q, r, s[..|s| - 1], i);
      KeptSum(p, s, i);
      KeptSum(q, s, i);
      KeptSum(r, s, i);
    }
  }

  lemma {:induction false} KeptSum(p: Allocation -> bool, s: seq<Allocation>, i: nat)
    requires |s| > 0
    ensures AllocatedOf(Keep(p, s), i) == AllocatedOf(Keep(p, s[..|s| - 1]), i)
      + if p(s[|s| - 1]) && s[|s| - 1].item == i then s[|s| - 1].amount else 0
  {
    var kept, last := Keep(p, s[..|s| - 1]), s[|s| - 1];
    KeepTotalAppend(OfItem(i), kept, last);
    assert Keep(p, s) == if p(last) then kept + [last] else kept;
  }

  /** The rows of all the payments are those of the first and, after it is gone, those of the others. */
  lemma {:induction false} FirstAndRest(ps: seq<nat>, s: seq<Allocation>, i: nat)
    requires |ps| > 0 && Distinct(ps)
    ensures Keep(OfPayments(ps[1..]), Keep(NotOfPayments([ps[0]]), s)) == Keep(OfPayments(ps[1..]), s)
    ensures Keep(NotOfPayments(ps[1..]), Keep(NotOfPayments([ps[0]]), s)) == Keep(NotOfPayments(ps), s)
    ensures AllocatedOf(Keep(OfPayments(ps), s), i)
         == AllocatedOf(Keep(OfPayments([ps[0]]), s), i) + AllocatedOf(Keep(OfPayments(ps[1..]), s), i)
  {
    assert ps == [ps[0]] + ps[1..];
    assert ps[0] !in ps[1..];
    KeepTwice(OfPayments(ps[1..]), NotOfPayments([ps[0]]), OfPayments(ps[1..]), s);
    KeepTwice(NotOfPayments(ps[1..]), NotOfPayments([ps[0]]), NotOfPayments(ps), s);
    SumsSplit(OfPayments(ps), OfPayments([ps[0]]), OfPayments(ps[1..]), s, i);
  }

  /** The rows of the first payment are among the rows of all. */
  lemma {:induction false} RowsAreShared(b: Books, ps: seq<nat>)
    requires |ps| > 0
    ensures ShowsAll(b, Keep(OfPayments(ps), b.allocations)) <==>
      ShowsAll(b, Keep(OfPayments([ps[0]]), b.allocations)) && ShowsAll(b, Keep(OfPayments(ps[1..]), b.allocations))
  {
    var rows, first := Keep(OfPayments(ps), b.allocations), Keep(OfPayments([ps[0]]), b.allocations);
    var rest := Keep(OfPayments(ps[1..]), b.allocations);
    KeepMembers(OfPayments(ps), b.allocations);
    KeepMembers(OfPayments([ps[0]]), b.allocations);
    KeepMembers(OfPayments(ps[1..]), b.allocations);
    assert ps == [ps[0]] + ps[1..];
    assert forall a :: a in rows <==> a in first || a in rest;
    if ShowsAll(b, rows) {
      forall k | 0 <= k < |first| ensures Visible(b, first[k].item) { assert first[k] in rows; }
      forall k | 0 <= k < |rest| ensures Visible(b, rest[k].item) { assert rest[k] in rows; }
    }
    if ShowsAll(b, first) && ShowsAll(b, rest) {
      forall k | 0 <= k < |rows| ensures Visible(b, rows[k].item) { assert rows[k] in first || rows[k] in rest; }
    }
  }

  lemma {:induction false} CoveredInTurn(b: Books, b1: Books, first: seq<Allocation>, rest: seq<Allocation>,
                                         all: seq<Allocation>, today: int)
    requires AddsUp(all, first, rest) && GivenBack(b, b1, first, today)
    ensures PaidCovers(b1, rest) <==> PaidCovers(b, all)
  {
  }

  ghost predicate AddsUp(all: seq<Allocation>, first: seq<Allocation>, rest: seq<Allocation>) {
    forall i: nat :: AllocatedOf(all, i) == AllocatedOf(first, i) + AllocatedOf(rest, i)
  }

  lemma {:induction false} RowsAddUp(s: seq<Allocation>, ps: seq<nat>)
    requires |ps| > 0 && Distinct(ps)
    ensures AddsUp(Keep(OfPayments(ps), s), Keep(OfPayments([ps[0]]), s), Keep(OfPayments(ps[1..]), s))
  {
    var all, first, rest := Keep(OfPayments(ps), s), Keep(OfPayments([ps[0]]), s), Keep(OfPayments(ps[1..]), s);
    forall i: nat ensures AllocatedOf(all, i) == AllocatedOf(first, i) + AllocatedOf(rest, i) {
      FirstAndRest(ps, s, i);
    }
  }

  lemma {:induction false} RestStays(b: Books, b1: Books, ps: seq<nat>)
    requires |ps| > 0 && Distinct(ps) && b1.allocations == Keep(NotOfPayments([ps[0]]), b.allocations)
    ensures Keep(OfPayments(ps[1..]), b1.allocations) == Keep(OfPayments(ps[1..]), b.allocations)
  {
    FirstAndRest(ps, b.allocations, 0);
  }

  lemma {:induction false} GivenBackKeepsShown(b: Books, b1: Books, given: seq<Allocation>, rest: seq<Allocation>, today: int)
    requires GivenBack(b, b1, given, today)
    ensures ShowsAll(b1, rest) <==> ShowsAll(b, rest)
  {
    assert forall i: nat :: Visible(b1, i) == Visible(b, i);
  }

  /** All rows together can be given back just when the first payment's can, and then the others'. */
  lemma {:induction false} ReturnableInTurn(b: Books, b1: Books, ps: seq<nat>, today: int)
    requires |ps| > 0 && Distinct(ps) && Undone(b, b1, [ps[0]], today)
    requires Returnable(b, Keep(OfPayments([ps[0]]), b.allocations))
    ensures Returnable(b1, Keep(OfPayments(ps[1..]), b1.allocations)) <==>
            Returnable(b, Keep(OfPayments(ps), b.allocations))
  {
    var all, first := Keep(OfPayments(ps), b.allocations), Keep(OfPayments([ps[0]]), b.allocations);
    var rest := Keep(OfPayments(ps[1..]), b.allocations);
    RestStays(b, b1, ps);
    RowsAreShared(b, ps);
    GivenBackKeepsShown(b, b1, first, rest, today);
    RowsAddUp(b.allocations, ps);
    CoveredInTurn(b, b1, first, rest, all, today);
  }

  lemma {:induction false} FirstIsReturnable(b: Books, ps: seq<nat>)
    requires Steady(b) && |ps| > 0 && Distinct(ps) && Returnable(b, Keep(OfPayments(ps), b.allocations))
    ensures Returnable(b, Keep(OfPayments([ps[0]]), b.allocations))
  {
    RowsAreShared(b, ps);
    RowsArePositive(b, OfPayments(ps[1..]));
    assert ShowsAll(b, Keep(OfPayments(ps), b.allocations));
    forall i | 0 <= i < |b.items| ensures AllocatedOf(Keep(OfPayments([ps[0]]), b.allocations), i) <= b.items[i].paid {
      FirstAndRest(ps, b.allocations, i);
      AllocatedIsPositive(Keep(OfPayments(ps[1..]), b.allocations), i);
    }
    assert ShowsAll(b, Keep(OfPayments([ps[0]]), b.allocations));
  }

  lemma {:induction false} DistinctInTurn(ps: seq<nat>)
    requires |ps| > 0
    ensures Distinct(ps) <==> Distinct(ps[1..]) && ps[0] !in ps[1..]
  {
  }

  lemma {:induction false} DeletableInTurn(b: Books, b1: Books, ps: seq<nat>, today: int)
    requires Steady(b) && |ps| > 0 && AllDeletable(b, [ps[0]]) && Undone(b, b1, [ps[0]], today)
    ensures AllDeletable(b1, ps[1..]) <==> AllDeletable(b, ps)
  {
    DistinctInTurn(ps);
    assert ps[0] == [ps[0]][0] && ps[0] in Among([ps[0]]);
    forall k | 0 <= k < |ps[1..]| ensures ps[1..][k] == ps[k + 1] { }
    if Distinct(ps) {
      ReturnableInTurn(b, b1, ps, today);
      if AllDeletable(b1, ps[1..]) {
        forall k | 0 <= k < |ps| ensures ps[k] in b.payments { assert k > 0 ==> ps[1..][k - 1] in b1.payments; }
      }
    } else if Distinct(ps[1..]) {
      var k :| 0 <= k < |ps[1..]| && ps[1..][k] == ps[0];
      assert ps[1..][k] !in b1.payments;
    }
  }

  lemma {:induction false} GivenBackTogether(b: Books, b1: Books, b': Books, first: seq<Allocation>,
                                             rest: seq<Allocation>, all: seq<Allocation>, today: int)
    requires PositiveRows(first) && PositiveRows(rest)
    requires forall i: nat :: AllocatedOf(all, i) == AllocatedOf(first, i) + AllocatedOf(rest, i)
    requires GivenBack(b, b1, first, today) && GivenBack(b1, b', rest, today)
    ensures GivenBack(b, b', all, today)
  {
    forall i | 0 <= i < |b.items| ensures b'.items[i] == Moved(b.items[i], -AllocatedOf(all, i), today) {
      AllocatedIsPositive(first, i);
      AllocatedIsPositive(rest, i);
      MovedTwice(b.items[i], -AllocatedOf(first, i), -AllocatedOf(rest, i), today);
    }
  }

  lemma {:induction false} UndoneInTurn(b: Books, b1: Books, b': Books, ps: seq<nat>, today: int)
    requires AllocationsStand(b) && |ps| > 0 && Distinct(ps)
    requires Undone(b, b1, [ps[0]], today) && Undone(b1, b', ps[1..], today)
    ensures Undone(b, b', ps, today)
  {
    var first, rest := Keep(OfPayments([ps[0]]), b.allocations), Keep(OfPayments(ps[1..]), b.allocations);
    var all := Keep(OfPayments(ps), b.allocations);
    forall i: nat ensures AllocatedOf(all, i) == AllocatedOf(first, i) + AllocatedOf(rest, i) {
      FirstAndRest(ps, b.allocations, i);
    }
    FirstAndRest(ps, b.allocations, 0);
    RowsArePositive(b, OfPayments([ps[0]]));
    RowsArePositive(b, OfPayments(ps[1..]));
    GivenBackTogether(b, b1, b', first, rest, all, today);
    AmongInTurn(ps);
  }

  lemma {:induction false} AmongInTurn(ps: seq<nat>)
    requires |ps| > 0
    ensures Among(ps) == Among([ps[0]]) + Among(ps[1..])
  {
  }

  /** A list of payments can be deleted exactly when all their rows together can be given back, and then gives back
      exactly those. */
  lemma {:induction false} DeletionsGiveBack(b: Books, ps: seq<nat>, today: int)
    requires Steady(b)
    ensures DeletePayments(b, ps, today).Ok? <==> AllDeletable(b, ps)
    ensures DeletePayments(b, ps, today).Ok? ==> Undone(b, DeletePayments(b, ps, today).value, ps, today)
    decreases |ps|
  {
    if |ps| == 0 {
      NothingToDelete(b, ps, today);
    } else {
      if AllDeletable(b, ps) { FirstIsReturnable(b, ps); }
      DeletionGivesBack(b, ps[0], today);
      if DeletePayment(b, ps[0], today).Ok? {
        var b1 := DeletePayment(b, ps[0], today).value;
        DeletionsGiveBack(b1, ps[1..], today);
        DeletableInTurn(b, b1, ps, today);
        if AllDeletable(b, ps) {
          UndoneInTurn(b, b1, DeletePayments(b, ps, today).value, ps, today);
        }
      }
    }
  }

  lemma {:induction false} NothingToDelete(b: Books, ps: seq<nat>, today: int)
    requires Steady(b) && ps == []
    ensures AllDeletable(b, ps) && Undone(b, b, ps, today)
  {
    KeepNone(OfPayments(ps), b.allocations);
    KeepEverything(NotOfPayments(ps), b.allocations);
    forall i | 0 <= i < |b.items| ensures AllocatedOf([], i) <= b.items[i].paid { assert ItemBalances(b.items[i]); }
  }

  lemma {:induction false} SameRows(ps: seq<nat>, qs: seq<nat>, s: seq<Allocation>)
    requires multiset(ps) == multiset(qs)
    ensures forall p :: p in ps <==> p in qs
    ensures Keep(OfPayments(ps), s) == Keep(OfPayments(qs), s)
    ensures Keep(NotOfPayments(ps), s) == Keep(NotOfPayments(qs), s)
    ensures Among(ps) == Among(qs)
  {
    forall p ensures p in ps <==> p in qs { assert p in ps <==> p in multiset(ps); }
    KeepAgree(OfPayments(ps), OfPayments(qs), s);
    KeepAgree(NotOfPayments(ps), NotOfPayments(qs), s);
  }

  lemma {:induction false} DeletableInAnyOrder(b: Books, ps: seq<nat>, qs: seq<nat>)
    requires multiset(ps) == multiset(qs) && AllDeletable(b, ps)
    ensures AllDeletable(b, qs)
  {
    SameRows(ps, qs, b.allocations);
    DistinctIsSingle(ps);
    DistinctIsSingle(qs);
    forall k | 0 <= k < |qs| ensures qs[k] in b.payments { assert qs[k] in ps; }
  }

  /** Deleting the same payments in another order is possible just when it is in the first, and ends in the same
      tables; only the order of the log differs. */
  lemma {:induction false} OrderOfDeletionsIsIrrelevant(b: Books, ps: seq<nat>, qs: seq<nat>, today: int)
    requires Inv(b) && multiset(ps) == multiset(qs)
    ensures DeletePayments(b, ps, today).Ok? <==> DeletePayments(b, qs, today).Ok?
    ensures DeletePayments(b, ps, today).Ok? ==>
      var after := DeletePayments(b, ps, today).value;
      after == DeletePayments(b, qs, today).value.(events := after.events)
  {
    StandingBooks(b);
    DeletionsGiveBack(b, ps, today);
    DeletionsGiveBack(b, qs, today);
    if AllDeletable(b, qs) { DeletableInAnyOrder(b, qs, ps); }
    if AllDeletable(b, ps) {
      DeletableInAnyOrder(b, ps, qs);
      UndoneOnce(b, DeletePayments(b, ps, today).value, DeletePayments(b, qs, today).value, ps, qs, today);
    }
  }

  lemma {:induction false} UndoneOnce(b: Books, x: Books, y: Books, ps: seq<nat>, qs: seq<nat>, today: int)
    requires Undone(b, x, ps, today) && Undone(b, y, qs, today) && multiset(ps) == multiset(qs)
    ensures x == y.(events := x.events)
  {
    SameRows(ps, qs, b.allocations);
    assert x.items == y.items;
  }

  lemma {:induction false} DistinctIsSingle(s: seq<nat>)
    ensures Distinct(s) <==> forall x :: x in s ==> multiset(s)[x] == 1
  {
    if |s| > 0 {
      var init, x := s[..|s| - 1], s[|s| - 1];
      assert s == init + [x];
      DistinctIsSingle(init);
      assert multiset(s) == multiset(init) + multiset{x};
      if x in init {
        assert x in multiset(init) && multiset(s)[x] >= 2 && x in s;
        assert !Distinct(s);
      } else {
        assert multiset(init)[x] == 0;
        forall y | y in init ensures multiset(s)[y] == multiset(init)[y] { }
        assert forall y :: y in s <==> y in init || y == x;
        assert Distinct(s) <==> Distinct(init);
      }
    }
  }

  // ---------------------------------------------------------------- round trip

  lemma {:induction false} NewRowsFor(first: nat, payment: nat, s: seq<Requested>, i: nat)
    ensures AllocatedOf(NewAllocations(first, payment, s), i) == RequestedFor(i, s)
  {
    if |s| > 0 {
      var rows := NewAllocations(first, payment, s);
      NewRowsFor(first, payment, s[..|s| - 1], i);
      assert rows[..|s| - 1] == NewAllocations(first, payment, s[..|s| - 1]);
      assert rows == rows[..|s| - 1] + [rows[|s| - 1]];
      KeepTotalAppend(OfItem(i), rows[..|s| - 1], rows[|s| - 1]);
    }
  }

  lemma {:induction false} RowsOfNewest(b: Books, first: nat, s: seq<Requested>)
    requires AllocationsStand(b) && b.nextPayment !in b.payments
    ensures var rows := NewAllocations(first, b.nextPayment, s);
      && Keep(OfPayments([b.nextPayment]), b.allocations + rows) == rows
      && Keep(NotOfPayments([b.nextPayment]), b.allocations + rows) == b.allocations
  {
    var rows, p := NewAllocations(first, b.nextPayment, s), b.nextPayment;
    forall j | 0 <= j < |b.allocations| ensures b.allocations[j].payment != p {
      assert AllocationStands(b, b.allocations[j]);
    }
    KeepAppend(OfPayments([p]), b.allocations, rows);
    KeepAppend(NotOfPayments([p]), b.allocations, rows);
    KeepNone(OfPayments([p]), b.allocations);
    KeepEverything(OfPayments([p]), rows);
    KeepNone(NotOfPayments([p]), rows);
    KeepEverything(NotOfPayments([p]), b.allocations);
  }

  /** An item as a payment and its deletion leave it: a status set by hand is replaced if the payment touched it. */
  function Restored(item: Item, touched: bool, later: int): Item {
    if touched then item.(status := CalculateStatus(item.paid, item.remaining), updatedOn := later) else item
  }

  /** `paid` is `b` with one new payment that settles `s`; the log aside. */
  ghost predicate SettledNow(b: Books, paid: Books, s: seq<Requested>, today: int) {
    && |paid.items| == |b.items|
    && (forall i :: 0 <= i < |b.items| ==> paid.items[i] == Moved(b.items[i], RequestedFor(i, s), today))
    && paid.allocations == b.allocations + NewAllocations(b.nextAllocation, b.nextPayment, s)
    && b.nextPayment in paid.payments && paid.payments - {b.nextPayment} == b.payments
    && paid.transactions == b.transactions
  }

  lemma {:induction false} NewestIsDeletable(b: Books, paid: Books, s: seq<Requested>, today: int)
    requires Steady(b) && b.nextPayment !in b.payments && SettledNow(b, paid, s, today)
    requires AllPositive(s) && RequestedVisible(b, s)
    ensures AllDeletable(paid, [b.nextPayment])
  {
    RowsOfNewest(b, b.nextAllocation, s);
    var rows := NewAllocations(b.nextAllocation, b.nextPayment, s);
    forall i | 0 <= i < |paid.items| ensures AllocatedOf(rows, i) <= paid.items[i].paid {
      NewRowsFor(b.nextAllocation, b.nextPayment, s, i);
      assert ItemBalances(b.items[i]);
    }
    forall k | 0 <= k < |rows| ensures Visible(paid, rows[k].item) {
      assert Visible(b, s[k].item);
    }
  }

  /** Every amount, allocation and payment is as before, and so is every status but those set by hand on items that
      the payment had touched. */
  ghost predicate ComesBack(b: Books, paid: Books, b': Books, later: int) {
    && b'.payments == b.payments && b'.allocations == b.allocations && b'.transactions == b.transactions
    && |b'.items| == |b.items| == |paid.items|
    && forall i :: 0 <= i < |b.items| ==>
         b'.items[i] == Restored(b.items[i], paid.items[i].paid != b.items[i].paid, later)
  }

  lemma {:induction false} UndoneComesBack(b: Books, paid: Books, b': Books, s: seq<Requested>, today: int, later: int)
    requires Steady(b) && b.nextPayment !in b.payments && SettledNow(b, paid, s, today)
    requires Undone(paid, b', [b.nextPayment], later)
    ensures ComesBack(b, paid, b', later)
  {
    RowsOfNewest(b, b.nextAllocation, s);
    assert Among([b.nextPayment]) == {b.nextPayment};
    forall i | 0 <= i < |b.items|
      ensures b'.items[i] == Restored(b.items[i], paid.items[i].paid != b.items[i].paid, later)
    {
      NewRowsFor(b.nextAllocation, b.nextPayment, s, i);
    }
  }

  /** Settling out of a new payment, seen from before it was recorded. */
  lemma {:induction false} SettledFromBefore(b: Books, p: PaymentDraft, paid: Books, s: seq<Requested>, today: int)
    requires Settles(WithPayment(b, p), paid, b.nextPayment, s, today) && b.nextPayment !in b.payments
    ensures SettledNow(b, paid, s, today)
  {
  }

  lemma {:induction false} SteadyBooks(b: Books)
    requires Inv(b)
    ensures Steady(b) && b.nextPayment !in b.payments
  {
  }

  lemma {:induction false} NewestIsUndone(b: Books, paid: Books, s: seq<Requested>, today: int, later: int)
    requires Steady(b) && Steady(paid) && b.nextPayment !in b.payments && SettledNow(b, paid, s, today)
    requires AllPositive(s) && RequestedVisible(b, s)
    ensures DeletePayment(paid, b.nextPayment, later).Ok?
    ensures ComesBack(b, paid, DeletePayment(paid, b.nextPayment, later).value, later)
  {
    NewestIsDeletable(b, paid, s, today);
    DeletionGivesBack(paid, b.nextPayment, later);
    UndoneComesBack(b, paid, DeletePayment(paid, b.nextPayment, later).value, s, today, later);
  }

  /** Recording a payment and deleting it again is always possible, and brings the tables back, but for the stamps. */
  lemma {:induction false} RecordThenDelete(b: Books, p: PaymentDraft, today: int, later: int)
    requires Inv(b) && RecordPayment(b, p, today).Ok?
    ensures var paid := RecordPayment(b, p, today).value;
      && DeletePayment(paid, b.nextPayment, later).Ok?
      && ComesBack(Relabelled(b, p.person, today), paid, DeletePayment(paid, b.nextPayment, later).value, later)
  {
    var named, paid := Relabelled(b, p.person, today), RecordPayment(b, p, today).value;
    PaymentSettlesGrants(b, p, today);
    OwedMoves.RelabelKeeps(b, p.person, today);
    SteadyBooks(named);
    StepKeeps(b, Op(Pay(p), 0, today));
    SteadyBooks(paid);
    SettledFromBefore(named, p, paid, GrantsOf(b, p), today);
    NewestIsUndone(named, paid, GrantsOf(b, p), today, later);
  }
}
