/** The automatic payment: oldest items first, up to the stop item, each paid off before the next is touched. */
module OwedWaterfall {
  import opened Outcomes
  import opened Ordering
  import opened OwedBooks
  import opened OwedPayments
  import opened OwedCommands
  import opened OwedInvariant
  import opened OwedRuns
  import opened OwedHistory
  import opened OwedSettlement

  // ---------------------------------------------------------------- who is paid, and in which order

  ghost predicate Distinct<T(!new)>(s: seq<T>) {
    forall j, k :: 0 <= j < k < |s| ==> s[j] != s[k]
  }

  lemma {:induction false} SortKeepsDistinct<T(!new)>(key: T -> Rank, s: seq<T>)
    requires Distinct(s)
    ensures Distinct(SortBy(key, s))
  {
    if |s| > 0 {
      var init, x := s[..|s| - 1], s[|s| - 1];
      SortKeepsDistinct(key, init);
      SortSorts(key, init);
      var sorted := SortBy(key, init);
      forall i | 0 <= i < |sorted| ensures sorted[i] != x {
        assert sorted[i] in multiset(init);
      }
    }
  }

  /** An item the person still owes on: not deleted, and open or partially paid. */
  predicate OwedBy(items: seq<Item>, person: string, i: nat) {
    && i < |items| && items[i].person == person && !items[i].deleted
    && (items[i].status == Open || items[i].status == PartiallyPaid)
  }

  /** Created earlier, or at the same time under a smaller id. */
  predicate IsOlder(items: seq<Item>, i: nat, j: nat)
    requires i < |items| && j < |items|
  {
    items[i].createdAt < items[j].createdAt || (items[i].createdAt == items[j].createdAt && i < j)
  }

  ghost predicate OlderComeFirst(items: seq<Item>, ids: seq<nat>) {
    forall j, k :: 0 <= j < k < |ids| ==> ids[j] < |items| && ids[k] < |items| && IsOlder(items, ids[j], ids[k])
  }

  lemma {:induction false} ListHoldsOwed(items: seq<Item>, person: string)
    ensures Distinct(ListOpenByPerson(items, person))
    ensures forall i: nat :: i in ListOpenByPerson(items, person) <==> OwedBy(items, person, i)
  {
    var all := Ids(|items|);
    var kept, ids := Keep(OpenFor(items, person), all), ListOpenByPerson(items, person);
    KeptAreDistinct(OpenFor(items, person), all);
    SortKeepsDistinct(CreatedOrder(items), kept);
    SortSorts(CreatedOrder(items), kept);
    KeepMembers(OpenFor(items, person), all);
    forall i: nat ensures i in ids <==> OwedBy(items, person, i) {
      assert i in ids <==> i in multiset(ids);
      assert i in kept <==> i in multiset(kept);
      if i < |items| { assert all[i] == i; }
    }
  }

  lemma {:induction false} NotLaterIsOlder(items: seq<Item>, i: nat, j: nat)
    requires i < |items| && j < |items| && i != j && !Before(CreatedOrder(items)(j), CreatedOrder(items)(i))
    ensures IsOlder(items, i, j)
  {
  }

  lemma {:induction false} OrderIsByAge(items: seq<Item>, ids: seq<nat>)
    requires Distinct(ids) && Ordered(CreatedOrder(items), ids)
    requires forall k :: 0 <= k < |ids| ==> ids[k] < |items|
    ensures OlderComeFirst(items, ids)
  {
    forall j, k | 0 <= j < k < |ids| ensures IsOlder(items, ids[j], ids[k]) {
      NotLaterIsOlder(items, ids[j], ids[k]);
    }
  }

  /** The list is every item the person still owes on, once, the oldest first. */
  lemma {:induction false} OldestFirst(items: seq<Item>, person: string)
    ensures var ids := ListOpenByPerson(items, person);
      && Distinct(ids)
      && (forall i: nat :: i in ids <==> OwedBy(items, person, i))
      && OlderComeFirst(items, ids)
  {
    var ids := ListOpenByPerson(items, person);
    ListHoldsOwed(items, person);
    SortSorts(CreatedOrder(items), Keep(OpenFor(items, person), Ids(|items|)));
    assert forall k :: 0 <= k < |ids| ==> ids[k] in ids;
    OrderIsByAge(items, ids);
  }

  /** The ids that come before `stop`. */
  function CutAt(ids: seq<nat>, stop: Option<nat>): seq<nat> {
    if |ids| == 0 || stop == Some(ids[0]) then [] else [ids[0]] + CutAt(ids[1..], stop)
  }

  // ---------------------------------------------------------------- shares

  /** What the first `k` of the ids still owe. */
  function Ahead(items: seq<Item>, ids: seq<nat>, k: nat): int
    requires k <= |ids|
  {
    if k == 0 then 0 else Owes(items, ids[0]) + Ahead(items, ids[1..], k - 1)
  }

  function Owes(items: seq<Item>, id: nat): int {
    if id < |items| then items[id].remaining else 0
  }

  function Share(items: seq<Item>, ids: seq<nat>, k: nat, amount: int): int
    requires k < |ids|
  {
    var left := amount - Ahead(items, ids, k);
    if left <= 0 then 0 else Least(left, Owes(items, ids[k]))
  }

  /** The grants the waterfall attempts. */
  function Plan(items: seq<Item>, ids: seq<nat>, left: int): seq<Requested> {
    if |ids| == 0 || left <= 0 then []
    else
      var amount := Least(left, Owes(items, ids[0]));
      [Requested(ids[0], amount)] + Plan(items, ids[1..], left - amount)
  }

  lemma {:induction false} PlanIsLocal(items: seq<Item>, items': seq<Item>, ids: seq<nat>, left: int)
    requires forall k :: 0 <= k < |ids| ==> Owes(items', ids[k]) == Owes(items, ids[k])
    ensures Plan(items', ids, left) == Plan(items, ids, left)
  {
    if |ids| > 0 && left > 0 {
      PlanIsLocal(items, items', ids[1..], left - Least(left, Owes(items, ids[0])));
    }
  }

  ghost predicate PlanExists(b: Books, ids: seq<nat>, left: int) {
    RequestedExist(b, Plan(b.items, ids, left))
  }

  lemma {:induction false} PlannedItemsExist(items: seq<Item>, ids: seq<nat>, left: int)
    ensures forall k :: 0 <= k < |Plan(items, ids, left)| ==> Plan(items, ids, left)[k].item in ids
  {
    if |ids| > 0 && left > 0 {
      PlannedItemsExist(items, ids[1..], left - Least(left, Owes(items, ids[0])));
    }
  }

  lemma {:induction false} PlanHead(items: seq<Item>, ids: seq<nat>, stop: Option<nat>, left: int)
    requires |ids| > 0 && stop != Some(ids[0]) && left > 0
    ensures var plan, amount := Plan(items, CutAt(ids, stop), left), Least(left, Owes(items, ids[0]));
      |plan| > 0 && plan[0] == Requested(ids[0], amount) && plan[1..] == Plan(items, CutAt(ids[1..], stop), left - amount)
  {
  }

  lemma {:induction false} GrantTouchesOne(b: Books, payment: nat, id: nat, amount: int, left: int, today: int)
    requires payment in b.payments && id < |b.items| && Allocate(b, payment, id, amount, left, today).Ok?
    ensures var b' := Allocate(b, payment, id, amount, left, today).value;
      payment in b'.payments && |b'.items| == |b.items| && b'.items == b.items[id := b'.items[id]]
  {
  }

  lemma {:induction false} PlanAfterGrant(b: Books, b1: Books, ids: seq<nat>, stop: Option<nat>, left: int)
    requires |ids| > 0 && Distinct(ids) && AllExist(b, ids) && ids[0] < |b.items| == |b1.items|
    requires b1.items == b.items[ids[0] := b1.items[ids[0]]]
    ensures Distinct(ids[1..]) && AllExist(b1, ids[1..]) && PlanExists(b1, CutAt(ids[1..], stop), left)
    ensures Plan(b1.items, CutAt(ids[1..], stop), left) == Plan(b.items, CutAt(ids[1..], stop), left)
  {
    var cut := CutAt(ids[1..], stop);
    CutIsAmong(ids[1..], stop);
    PlanIsLocal(b.items, b1.items, cut, left);
    PlannedItemsExist(b1.items, cut, left);
  }

  /** One turn of the waterfall is one grant of the plan, if the rest agrees. */
  lemma {:induction false} TurnFollowsPlan(b: Books, payment: nat, ids: seq<nat>, stop: Option<nat>, plan: seq<Requested>,
                                           left: int, today: int)
    requires payment in b.payments && AllExist(b, ids) && RequestedExist(b, plan)
    requires |ids| > 0 && stop != Some(ids[0]) && left > 0
    requires |plan| > 0 && plan[0] == Requested(ids[0], Least(left, b.items[ids[0]].remaining))
    requires var r := Allocate(b, payment, ids[0], plan[0].amount, left, today);
      r.Ok? ==>
        && payment in r.value.payments && AllExist(r.value, ids[1..]) && RequestedExist(r.value, plan[1..])
        && Waterfall(r.value, payment, ids[1..], stop, left - plan[0].amount, today)
           == ApplyRequested(r.value, payment, plan[1..], left - plan[0].amount, today)
    ensures Waterfall(b, payment, ids, stop, left, today) == ApplyRequested(b, payment, plan, left, today)
  {
  }

  lemma {:induction false} NoTurnFollowsPlan(b: Books, payment: nat, ids: seq<nat>, stop: Option<nat>, left: int, today: int)
    requires payment in b.payments && AllExist(b, ids)
    requires |ids| == 0 || stop == Some(ids[0]) || left <= 0
    ensures Plan(b.items, CutAt(ids, stop), left) == []
    ensures Waterfall(b, payment, ids, stop, left, today) == ApplyRequested(b, payment, [], left, today)
  {
  }

  ghost predicate IsPlan(b: Books, ids: seq<nat>, stop: Option<nat>, plan: seq<Requested>, left: int) {
    plan == Plan(b.items, CutAt(ids, stop), left) && RequestedExist(b, plan)
  }

  /** After a grant the rest of the plan is the plan of the rest. */
  lemma {:induction false} RestIsPlanned(b: Books, payment: nat, ids: seq<nat>, stop: Option<nat>, plan: seq<Requested>,
                                         left: int, today: int)
    requires payment in b.payments && AllExist(b, ids) && Distinct(ids)
    requires |ids| > 0 && stop != Some(ids[0]) && left > 0 && IsPlan(b, ids, stop, plan, left)
    requires |plan| > 0 && plan[0] == Requested(ids[0], Least(left, b.items[ids[0]].remaining))
    requires Allocate(b, payment, ids[0], plan[0].amount, left, today).Ok?
    ensures var b' := Allocate(b, payment, ids[0], plan[0].amount, left, today).value;
      && payment in b'.payments && AllExist(b', ids[1..]) && Distinct(ids[1..])
      && IsPlan(b', ids[1..], stop, plan[1..], left - plan[0].amount)
  {
    var b' := Allocate(b, payment, ids[0], plan[0].amount, left, today).value;
    PlanHead(b.items, ids, stop, left);
    GrantTouchesOne(b, payment, ids[0], plan[0].amount, left, today);
    PlanAfterGrant(b, b', ids, stop, left - plan[0].amount);
  }

  lemma {:induction false} WaterfallAppliesPlan(b: Books, payment: nat, ids: seq<nat>, stop: Option<nat>,
                                                plan: seq<Requested>, left: int, today: int)
    requires payment in b.payments && AllExist(b, ids) && Distinct(ids) && IsPlan(b, ids, stop, plan, left)
    ensures Waterfall(b, payment, ids, stop, left, today) == ApplyRequested(b, payment, plan, left, today)
    decreases |ids|
  {
    if |ids| == 0 || stop == Some(ids[0]) || left <= 0 {
      NoTurnFollowsPlan(b, payment, ids, stop, left, today);
    } else {
      PlanHead(b.items, ids, stop, left);
      var r := Allocate(b, payment, ids[0], plan[0].amount, left, today);
      if r.Ok? {
        RestIsPlanned(b, payment, ids, stop, plan, left, today);
        WaterfallAppliesPlan(r.value, payment, ids[1..], stop, plan[1..], left - plan[0].amount, today);
      }
      TurnFollowsPlan(b, payment, ids, stop, plan, left, today);
    }
  }

  /** The waterfall is the application of its plan. */
  lemma {:induction false} WaterfallFollowsPlan(b: Books, payment: nat, ids: seq<nat>, stop: Option<nat>, left: int,
                                                today: int)
    requires payment in b.payments && AllExist(b, ids) && Distinct(ids)
    requires PlanExists(b, CutAt(ids, stop), left)
    ensures Waterfall(b, payment, ids, stop, left, today)
         == ApplyRequested(b, payment, Plan(b.items, CutAt(ids, stop), left), left, today)
  {
    WaterfallAppliesPlan(b, payment, ids, stop, Plan(b.items, CutAt(ids, stop), left), left, today);
  }

  lemma {:induction false} CutIsAmong(ids: seq<nat>, stop: Option<nat>)
    ensures CutAt(ids, stop) <= ids
    ensures forall k :: 0 <= k < |CutAt(ids, stop)| ==> stop != Some(CutAt(ids, stop)[k])
    ensures |CutAt(ids, stop)| < |ids| ==> stop == Some(ids[|CutAt(ids, stop)|])
  {
    if |ids| > 0 && stop != Some(ids[0]) {
      CutIsAmong(ids[1..], stop);
    }
  }

  ghost predicate NoneOwesLess(items: seq<Item>, ids: seq<nat>) {
    forall k :: 0 <= k < |ids| ==> Owes(items, ids[k]) >= 0
  }

  /** No item that owes nothing is reached while money is left. */
  ghost predicate EachReachedOwes(items: seq<Item>, ids: seq<nat>, amount: int) {
    forall k :: 0 <= k < |ids| && Owes(items, ids[k]) == 0 ==> Ahead(items, ids, k) >= amount
  }

  lemma {:induction false} AheadGrows(items: seq<Item>, ids: seq<nat>, k: nat)
    requires k <= |ids| && NoneOwesLess(items, ids)
    ensures 0 <= Ahead(items, ids, k)
    ensures k < |ids| ==> Ahead(items, ids, k + 1) == Ahead(items, ids, k) + Owes(items, ids[k])
  {
    if k > 0 {
      AheadGrows(items, ids[1..], k - 1);
    }
  }

  lemma {:induction false} PlanTotals(items: seq<Item>, ids: seq<nat>, left: int)
    requires NoneOwesLess(items, ids) && left >= 0
    ensures RequestedTotal(Plan(items, ids, left)) == Least(left, Ahead(items, ids, |ids|))
    ensures AllPositive(Plan(items, ids, left)) <==> EachReachedOwes(items, ids, left)
  {
    if |ids| == 0 || left == 0 {
      forall k | 0 <= k <= |ids| ensures Ahead(items, ids, k) >= 0 { AheadGrows(items, ids, k); }
    } else {
      var amount, rest, plan := Least(left, Owes(items, ids[0])), ids[1..], Plan(items, ids, left);
      PlanTotals(items, rest, left - amount);
      RequestedFromFront(0, plan);
      assert plan[1..] == Plan(items, rest, left - amount);
      assert Ahead(items, ids, |ids|) == Owes(items, ids[0]) + Ahead(items, rest, |rest|);
      AheadGrows(items, rest, |rest|);
      PlanTailPositive(plan);
      ReachedTail(items, ids, left);
    }
  }

  lemma {:induction false} PlanTailPositive(s: seq<Requested>)
    requires |s| > 0
    ensures AllPositive(s) <==> s[0].amount > 0 && AllPositive(s[1..])
  {
  }

  lemma {:induction false} ReachedTail(items: seq<Item>, ids: seq<nat>, left: int)
    requires |ids| > 0 && NoneOwesLess(items, ids) && left > 0
    ensures EachReachedOwes(items, ids, left) <==>
      Owes(items, ids[0]) > 0 && EachReachedOwes(items, ids[1..], left - Least(left, Owes(items, ids[0])))
  {
    var rest, amount := ids[1..], Least(left, Owes(items, ids[0]));
    forall k | 0 <= k < |rest|
      ensures Ahead(items, ids, k + 1) == Owes(items, ids[0]) + Ahead(items, rest, k)
      ensures Ahead(items, rest, k) >= 0
    {
      AheadGrows(items, rest, k);
    }
    if EachReachedOwes(items, ids, left) {
      forall k | 0 <= k < |rest| && Owes(items, rest[k]) == 0 ensures Ahead(items, rest, k) >= left - amount {
        assert ids[k + 1] == rest[k];
      }
    } else if Owes(items, ids[0]) > 0 {
      var k :| 0 <= k < |ids| && Owes(items, ids[k]) == 0 && Ahead(items, ids, k) < left;
      assert rest[k - 1] == ids[k];
    }
  }

  /** What the plan gives each item. */
  lemma {:induction false} PlanShares(items: seq<Item>, ids: seq<nat>, left: int, i: nat)
    requires NoneOwesLess(items, ids) && Distinct(ids) && left >= 0
    ensures i !in ids ==> RequestedFor(i, Plan(items, ids, left)) == 0
    ensures forall k :: 0 <= k < |ids| && ids[k] == i ==> RequestedFor(i, Plan(items, ids, left)) == Share(items, ids, k, left)
  {
    if |ids| == 0 || left == 0 {
      forall k | 0 <= k <= |ids| ensures Ahead(items, ids, k) >= 0 { AheadGrows(items, ids, k); }
    } else {
      var amount, rest, plan := Least(left, Owes(items, ids[0])), ids[1..], Plan(items, ids, left);
      PlanShares(items, rest, left - amount, i);
      RequestedFromFront(i, plan);
      assert plan[1..] == Plan(items, rest, left - amount);
      forall k | 0 <= k < |ids| && ids[k] == i ensures RequestedFor(i, plan) == Share(items, ids, k, left) {
        if k == 0 {
          assert i !in rest;
        } else {
          assert rest[k - 1] == i;
          AheadGrows(items, rest, k - 1);
          assert Ahead(items, ids, k) == Owes(items, ids[0]) + Ahead(items, rest, k - 1);
        }
      }
    }
  }

  // ---------------------------------------------------------------- the payment

  /** The items a payment without explicit allocations is for. */
  function Due(b: Books, p: PaymentDraft): seq<nat> {
    CutAt(ListOpenByPerson(b.items, p.person), p.stopBefore)
  }

  /** `b'` is `b` with every due item given its share, and no other item changed. */
  ghost predicate Shared(b: Books, b': Books, due: seq<nat>, amount: int, today: int) {
    && |b'.items| == |b.items|
    && (forall k :: 0 <= k < |due| && due[k] < |b.items| ==>
         b'.items[due[k]] == Moved(b.items[due[k]], Share(b.items, due, k, amount), today))
    && (forall i :: 0 <= i < |b.items| && i !in due ==> b'.items[i] == b.items[i])
  }

  lemma {:induction false} DueItems(b: Books, p: PaymentDraft)
    requires Inv(b)
    ensures Distinct(Due(b, p)) && AllExist(b, Due(b, p)) && NoneOwesLess(b.items, Due(b, p))
  {
    OldestFirst(b.items, p.person);
    CutIsAmong(ListOpenByPerson(b.items, p.person), p.stopBefore);
    forall k | 0 <= k < |Due(b, p)| ensures Due(b, p)[k] < |b.items| && Owes(b.items, Due(b, p)[k]) >= 0 {
      assert Due(b, p)[k] in ListOpenByPerson(b.items, p.person);
      assert ItemBalances(b.items[Due(b, p)[k]]);
    }
  }

  lemma {:induction false} PlanFits(b: Books, ids: seq<nat>, left: int)
    requires ItemsStand(b) && Distinct(ids) && AllExist(b, ids) && NoneOwesLess(b.items, ids) && left >= 0
    ensures PlanExists(b, ids, left)
    ensures AllPositive(Plan(b.items, ids, left)) ==> Affordable(b, Plan(b.items, ids, left), left)
  {
    PlannedItemsExist(b.items, ids, left);
    PlanTotals(b.items, ids, left);
    forall i | 0 <= i < |b.items| ensures RequestedFor(i, Plan(b.items, ids, left)) <= b.items[i].remaining {
      assert ItemBalances(b.items[i]);
      PlanShares(b.items, ids, left, i);
      if i in ids {
        var k :| 0 <= k < |ids| && ids[k] == i;
        assert RequestedFor(i, Plan(b.items, ids, left)) == Share(b.items, ids, k, left);
      }
    }
  }

  lemma {:induction false} ZeroGrantAborts(b: Books, payment: nat, s: seq<Requested>, left: int, today: int)
    requires payment in b.payments && RequestedExist(b, s) && !AllPositive(s)
    ensures ApplyRequested(b, payment, s, left, today).Refused?
    decreases |s|
  {
    var r := Allocate(b, payment, s[0].item, s[0].amount, left, today);
    if r.Ok? {
      PlanTailPositive(s);
      ZeroGrantAborts(r.value, payment, s[1..], left - s[0].amount, today);
    }
  }

  /** The automatic payment is the application of its plan: it goes through exactly when every planned amount is
      positive, and then settles the plan. */
  lemma {:induction false} PlanIsSettled(b: Books, p: PaymentDraft, today: int)
    requires Inv(b) && p.requested == []
    ensures SettlePayment(b, p, today).Ok? <==>
      PaymentSchemaAccepts(p) && LinkAccepts(b, p.linked, p.amount) && AllPositive(Plan(b.items, Due(b, p), p.amount))
    ensures SettlePayment(b, p, today).Ok? ==>
      Settles(WithPayment(b, p), SettlePayment(b, p, today).value, b.nextPayment, Plan(b.items, Due(b, p), p.amount), today)
  {
    if PaymentSchemaAccepts(p) && LinkAccepts(b, p.linked, p.amount) {
      var due, b1 := Due(b, p), WithPayment(b, p);
      var plan := Plan(b.items, due, p.amount);
      DueItems(b, p);
      StandingBooks(b);
      PlanFits(b, due, p.amount);
      GrantsStandWithPayment(b, p);
      OldestFirst(b.items, p.person);
      OpenItemsExist(b.items, p.person);
      WaterfallFollowsPlan(b1, b.nextPayment, ListOpenByPerson(b.items, p.person), p.stopBefore, p.amount, today);
      if AllPositive(plan) {
        GrantsApplyInFull(b1, b.nextPayment, plan, p.amount, today);
      } else {
        ZeroGrantAborts(b1, b.nextPayment, plan, p.amount, today);
      }
    }
  }

  lemma {:induction false} DueItemsShare(b: Books, p: PaymentDraft, today: int)
    requires Inv(b) && p.requested == []
    ensures SettlePayment(b, p, today).Ok? <==>
      PaymentSchemaAccepts(p) && LinkAccepts(b, p.linked, p.amount) && EachReachedOwes(b.items, Due(b, p), p.amount)
    ensures SettlePayment(b, p, today).Ok? ==>
      var b' := SettlePayment(b, p, today).value;
      && Shared(b, b', Due(b, p), p.amount, today)
      && AllocatedFrom(b'.allocations, b.nextPayment) == Least(p.amount, Ahead(b.items, Due(b, p), |Due(b, p)|))
  {
    PlanIsSettled(b, p, today);
    if PaymentSchemaAccepts(p) {
      var due := Due(b, p);
      var plan := Plan(b.items, due, p.amount);
      DueItems(b, p);
      PlanTotals(b.items, due, p.amount);
      if SettlePayment(b, p, today).Ok? {
        var b' := SettlePayment(b, p, today).value;
        forall i | 0 <= i < |b.items| ensures
          && (i !in due ==> b'.items[i] == b.items[i])
          && (forall k :: 0 <= k < |due| && due[k] == i ==>
               b'.items[i] == Moved(b.items[i], Share(b.items, due, k, p.amount), today))
        {
          PlanShares(b.items, due, p.amount, i);
        }
        SpentOnPlan(b, WithPayment(b, p), plan);
      }
    }
  }

  lemma {:induction false} NewRowsTotal(first: nat, payment: nat, s: seq<Requested>)
    ensures Keep(OfPayment(payment), NewAllocations(first, payment, s)) == NewAllocations(first, payment, s)
    ensures Total(NewAllocations(first, payment, s)) == RequestedTotal(s)
  {
    KeepEverything(OfPayment(payment), NewAllocations(first, payment, s));
    if |s| > 0 {
      NewRowsTotal(first, payment, s[..|s| - 1]);
      var rows := NewAllocations(first, payment, s);
      assert rows[..|s| - 1] == NewAllocations(first, payment, s[..|s| - 1]);
    }
  }

  lemma {:induction false} SpentOnPlan(b: Books, b1: Books, s: seq<Requested>)
    requires AllocationsStand(b) && PaymentsCover(b) && b1.allocations == b.allocations
    ensures AllocatedFrom(b1.allocations + NewAllocations(b1.nextAllocation, b.nextPayment, s), b.nextPayment)
         == RequestedTotal(s)
  {
    OwedMoves.NothingAllocatedYet(b, b.nextPayment);
    KeepAppend(OfPayment(b.nextPayment), b.allocations, NewAllocations(b1.nextAllocation, b.nextPayment, s));
    NewRowsTotal(b1.nextAllocation, b.nextPayment, s);
    TotalAppend(Keep(OfPayment(b.nextPayment), b.allocations), NewAllocations(b1.nextAllocation, b.nextPayment, s));
  }

  /** A later item gets nothing unless an earlier one gets all it owes. */
  lemma {:induction false} SharesGoInOrder(items: seq<Item>, ids: seq<nat>, j: nat, k: nat, amount: int)
    requires NoneOwesLess(items, ids) && j < k < |ids| && Share(items, ids, k, amount) != 0
    ensures Share(items, ids, j, amount) == Owes(items, ids[j])
  {
    AheadGrows(items, ids, j);
    AheadIsMonotone(items, ids, j + 1, k);
  }

  /** Given its whole due, an item is paid off, unless it owed nothing and was left as it was. */
  lemma {:induction false} PaidOff(item: Item, today: int)
    requires ItemBalances(item)
    ensures Moved(item, item.remaining, today) == item || Moved(item, item.remaining, today).status.Paid?
    ensures Moved(item, item.remaining, today).remaining == 0
  {
  }

  lemma {:induction false} OrderedEffect(b: Books, b': Books, due: seq<nat>, amount: int, today: int, j: nat, k: nat)
    requires ItemsBalance(b) && AllExist(b, due) && NoneOwesLess(b.items, due) && Shared(b, b', due, amount, today)
    requires j < k < |due|
    ensures due[j] < |b.items| && due[k] < |b.items| == |b'.items|
    ensures b'.items[due[k]] != b.items[due[k]] ==> b'.items[due[j]].remaining == 0
  {
    if Share(b.items, due, k, amount) != 0 {
      SharesGoInOrder(b.items, due, j, k, amount);
      PaidOff(b.items[due[j]], today);
    }
  }

  lemma {:induction false} AheadIsMonotone(items: seq<Item>, ids: seq<nat>, j: nat, k: nat)
    requires j <= k <= |ids| && NoneOwesLess(items, ids)
    ensures Ahead(items, ids, j) <= Ahead(items, ids, k)
    decreases k - j
  {
    if j < k {
      AheadGrows(items, ids, j);
      AheadIsMonotone(items, ids, j + 1, k);
    }
  }

  // ---------------------------------------------------------------- seen from before the labels are merged

  lemma {:induction false} AheadIsLocal(items: seq<Item>, items': seq<Item>, ids: seq<nat>, k: nat)
    requires k <= |ids| && forall i: nat :: Owes(items', i) == Owes(items, i)
    ensures Ahead(items', ids, k) == Ahead(items, ids, k)
  {
    if k > 0 {
      AheadIsLocal(items, items', ids[1..], k - 1);
    }
  }

  /** The items are the same but for their stamps. */
  ghost predicate SameButStamps(items: seq<Item>, items': seq<Item>) {
    |items'| == |items| && forall i :: 0 <= i < |items| ==> items'[i] == items[i].(updatedOn := items'[i].updatedOn)
  }

  lemma {:induction false} StampsKeepOrder(items: seq<Item>, items': seq<Item>, person: string)
    requires SameButStamps(items, items')
    ensures ListOpenByPerson(items', person) == ListOpenByPerson(items, person)
  {
    var ids := Ids(|items|);
    KeepAgree(OpenFor(items', person), OpenFor(items, person), ids);
    SortAgree(CreatedOrder(items'), CreatedOrder(items), Keep(OpenFor(items, person), ids));
  }

  /** Merging labels changes neither whose turn it is nor what anyone owes. */
  lemma {:induction false} RelabellingIsInvisible(b: Books, p: PaymentDraft, today: int)
    ensures var b' := Relabelled(b, p.person, today);
      && Due(b', p) == Due(b, p)
      && (forall i: nat :: Owes(b'.items, i) == Owes(b.items, i))
      && (forall k :: 0 <= k <= |Due(b, p)| ==> Ahead(b'.items, Due(b, p), k) == Ahead(b.items, Due(b, p), k))
      && Plan(b'.items, Due(b, p), p.amount) == Plan(b.items, Due(b, p), p.amount)
  {
    var items, items', due := b.items, Relabelled(b, p.person, today).items, Due(b, p);
    StampsKeepOrder(items, items', p.person);
    assert forall i: nat :: Owes(items', i) == Owes(items, i);
    PlanIsLocal(items, items', due, p.amount);
    forall k | 0 <= k <= |due| ensures Ahead(items', due, k) == Ahead(items, due, k) {
      AheadIsLocal(items, items', due, k);
    }
  }

  /** An automatic payment goes through exactly when no due item that owes nothing is reached with money left.
      Then each due item gets min(what it owes, what is left after the older ones), and beyond the stamps of the merged
      labels no other item changes; in all min(payment, total due) is allocated. */
  lemma {:induction false} WaterfallSharesOldestFirst(b: Books, p: PaymentDraft, today: int)
    requires Inv(b) && p.requested == []
    ensures RecordPayment(b, p, today).Ok? <==>
      PaymentSchemaAccepts(p) && LinkAccepts(b, p.linked, p.amount) && EachReachedOwes(b.items, Due(b, p), p.amount)
    ensures RecordPayment(b, p, today).Ok? ==>
      var b' := RecordPayment(b, p, today).value;
      && Shared(Relabelled(b, p.person, today), b', Due(b, p), p.amount, today)
      && AllocatedFrom(b'.allocations, b.nextPayment) == Least(p.amount, Ahead(b.items, Due(b, p), |Due(b, p)|))
  {
    OwedMoves.RelabelKeeps(b, p.person, today);
    RelabellingIsInvisible(b, p, today);
    DueItemsShare(Relabelled(b, p.person, today), p, today);
  }

  /** A prefix of the due items is paid off, at most one is left partly paid, and no later one gets anything. */
  lemma {:induction false} PaidPrefixThenAtMostOnePartial(b: Books, p: PaymentDraft, today: int, j: nat, k: nat)
    requires Inv(b) && p.requested == [] && RecordPayment(b, p, today).Ok?
    requires j < k < |Due(b, p)|
    ensures var due, b' := Due(b, p), RecordPayment(b, p, today).value;
      && due[j] < |b.items| && due[k] < |b.items| == |b'.items|
      && (b'.items[due[k]] != Relabelled(b, p.person, today).items[due[k]] ==> b'.items[due[j]].remaining == 0)
  {
    var named := Relabelled(b, p.person, today);
    OwedMoves.RelabelKeeps(b, p.person, today);
    RelabellingIsInvisible(b, p, today);
    DueItems(named, p);
    WaterfallSharesOldestFirst(b, p, today);
    OrderedEffect(named, RecordPayment(b, p, today).value, Due(b, p), p.amount, today, j, k);
  }

  /** What a payment will give to which item, told from the tables before it. */
  function GrantsOf(b: Books, p: PaymentDraft): seq<Requested> {
    if |p.requested| > 0 then p.requested else Plan(b.items, Due(b, p), p.amount)
  }

  /** A payment of either kind settles its grants, which are positive and go to visible items of its person. */
  lemma {:induction false} PaymentSettlesGrants(b: Books, p: PaymentDraft, today: int)
    requires Inv(b) && RecordPayment(b, p, today).Ok?
    ensures Settles(WithPayment(Relabelled(b, p.person, today), p), RecordPayment(b, p, today).value, b.nextPayment,
                    GrantsOf(b, p), today)
    ensures AllPositive(GrantsOf(b, p)) && RequestedVisible(b, GrantsOf(b, p))
    ensures forall k :: 0 <= k < |GrantsOf(b, p)| ==>
      GrantsOf(b, p)[k].item < |b.items| && b.items[GrantsOf(b, p)[k].item].person == p.person
  {
    if |p.requested| > 0 {
      ExplicitPaymentsApplyInFull(b, p, today);
    } else {
      var s := Plan(b.items, Due(b, p), p.amount);
      OwedMoves.RelabelKeeps(b, p.person, today);
      RelabellingIsInvisible(b, p, today);
      PlanIsSettled(Relabelled(b, p.person, today), p, today);
      PlannedAreOpen(b, p);
    }
  }

  lemma {:induction false} PlannedAreOpen(b: Books, p: PaymentDraft)
    ensures forall k :: 0 <= k < |Plan(b.items, Due(b, p), p.amount)| ==>
      OpenFor(b.items, p.person)(Plan(b.items, Due(b, p), p.amount)[k].item)
  {
    var s := Plan(b.items, Due(b, p), p.amount);
    PlannedItemsExist(b.items, Due(b, p), p.amount);
    OldestFirst(b.items, p.person);
    CutIsAmong(ListOpenByPerson(b.items, p.person), p.stopBefore);
    forall k | 0 <= k < |s| ensures OpenFor(b.items, p.person)(s[k].item) {
      assert s[k].item in Due(b, p) && s[k].item in ListOpenByPerson(b.items, p.person);
    }
  }

  // ---------------------------------------------------------------- a blocked person

  const SETTLED_BUT_OPEN := [
    Op(Create(ItemDraft("Ana", 500, 0, None, None, "manual", None)), 0, 0),
    Op(Update(0, ItemPatch(None, None, Some(500), Some(Open), Unset, Unset)), 0, 0)]

  /** The condition can fail: an update may leave an item open with nothing remaining, and then every automatic
      payment of that person is aborted by the constraint on allocation amounts. */
  lemma {:induction false} AnUpdateCanBlockPayments(amount: int, today: int)
    requires amount > 0
    ensures RecordPayment(Run(EMPTY_BOOKS, SETTLED_BUT_OPEN), PaymentDraft("Ana", today, amount, None, None, []), today)
         == Refused(ABORTED)
  {
  }
}
