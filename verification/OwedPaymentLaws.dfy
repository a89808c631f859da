/** Payments told by fields: which are accepted, which item gets how much, and what is written. */
module OwedPaymentLaws {
  import opened Outcomes
  import opened Ordering
  import opened Totals
  import opened OwedBooks
  import opened OwedPayments
  import opened OwedInvariant
  import OwedMoves
  import opened OwedSettlement
  import opened OwedReversal
  import opened OwedWaterfall
  import opened OwedItemLaws

  // ---------------------------------------------------------------- who is due, and what is ahead of whom

  /** The payment's person owes on the item, and it comes before the item to stop at, if the person owes on that one. */
  predicate IsDue(b: Books, p: PaymentDraft, i: nat) {
    && OwedBy(b.items, p.person, i)
    && (p.stopBefore.Some? && OwedBy(b.items, p.person, p.stopBefore.value) ==> IsOlder(b.items, i, p.stopBefore.value))
  }

  lemma {:induction false} DueByFields(b: Books, p: PaymentDraft)
    ensures forall i: nat :: i in Due(b, p) <==> IsDue(b, p, i)
    ensures Distinct(Due(b, p))
    ensures OlderComeFirst(b.items, Due(b, p))
  {
    var ids, due := ListOpenByPerson(b.items, p.person), Due(b, p);
    OldestFirst(b.items, p.person);
    CutIsAmong(ids, p.stopBefore);
    forall i: nat ensures i in due <==> IsDue(b, p, i) {
      if i in due {
        var k :| 0 <= k < |due| && due[k] == i;
        DueIsBeforeStop(ids, due, p.stopBefore, b.items, p.person, k);
      }
      if IsDue(b, p, i) {
        var k :| 0 <= k < |ids| && ids[k] == i;
        BeforeStopIsDue(ids, due, p.stopBefore, b.items, p.person, k);
      }
    }
  }

  /** The list by age and its part before the item to stop at. */
  ghost predicate IsCut(ids: seq<nat>, due: seq<nat>, stop: Option<nat>, items: seq<Item>, person: string) {
    && due <= ids && Distinct(ids)
    && (forall i: nat :: i in ids <==> OwedBy(items, person, i))
    && OlderComeFirst(items, ids)
    && (forall k :: 0 <= k < |due| ==> stop != Some(due[k]))
    && (|due| < |ids| ==> stop == Some(ids[|due|]))
  }

  lemma {:induction false} DueIsBeforeStop(ids: seq<nat>, due: seq<nat>, stop: Option<nat>, items: seq<Item>,
                                           person: string, k: nat)
    requires IsCut(ids, due, stop, items, person) && k < |due|
    ensures OwedBy(items, person, due[k])
    ensures stop.Some? && OwedBy(items, person, stop.value) ==> IsOlder(items, due[k], stop.value)
  {
    assert due[k] == ids[k] && ids[k] in ids;
    if stop.Some? && OwedBy(items, person, stop.value) {
      assert stop.value in ids;
      var s :| 0 <= s < |ids| && ids[s] == stop.value;
      assert forall j :: 0 <= j < |due| ==> due[j] == ids[j];
      assert s >= |due|;
    }
  }

  lemma {:induction false} BeforeStopIsDue(ids: seq<nat>, due: seq<nat>, stop: Option<nat>, items: seq<Item>,
                                           person: string, k: nat)
    requires IsCut(ids, due, stop, items, person) && k < |ids|
    requires stop.Some? && OwedBy(items, person, stop.value) ==> ids[k] < |items| && IsOlder(items, ids[k], stop.value)
    ensures ids[k] in due
  {
    assert |due| < |ids| ==> ids[|due|] in ids;
    if k < |due| { assert due[k] == ids[k]; }
  }

  /** The items the person owes on that are older than one of them. */
  ghost function OlderOwed(items: seq<Item>, person: string, i: nat): set<nat> {
    set j: nat | j < |items| && OwedBy(items, person, j) && i < |items| && IsOlder(items, j, i)
  }

  function RemainingOf(items: seq<Item>): nat -> int {
    (i: nat) => if i < |items| then items[i].remaining else 0
  }

  /** What the person owes on older items. */
  ghost function OwedAhead(items: seq<Item>, person: string, i: nat): int {
    SumOver(OlderOwed(items, person, i), RemainingOf(items))
  }

  ghost function FirstOf(ids: seq<nat>, k: nat): set<nat>
    requires k <= |ids|
  {
    set j | 0 <= j < k :: ids[j]
  }

  lemma {:induction false} FirstOneMore(ids: seq<nat>, k: nat)
    requires k < |ids| && Distinct(ids)
    ensures ids[k] in FirstOf(ids, k + 1) && FirstOf(ids, k + 1) - {ids[k]} == FirstOf(ids, k)
  {
  }

  lemma {:induction false} AheadIsSum(items: seq<Item>, ids: seq<nat>, k: nat)
    requires k <= |ids| && Distinct(ids)
    ensures Ahead(items, ids, k) == SumOver(FirstOf(ids, k), RemainingOf(items))
    decreases k
  {
    if k > 0 {
      AheadLast(items, ids, k - 1);
      AheadIsSum(items, ids, k - 1);
      FirstOneMore(ids, k - 1);
      TakeOut(FirstOf(ids, k), RemainingOf(items), ids[k - 1]);
    }
  }

  lemma {:induction false} AheadLast(items: seq<Item>, ids: seq<nat>, k: nat)
    requires k < |ids|
    ensures Ahead(items, ids, k + 1) == Ahead(items, ids, k) + Owes(items, ids[k])
  {
    if k > 0 {
      AheadLast(items, ids[1..], k - 1);
    }
  }

  /** The due items ahead of a due one are all the older ones. */
  lemma {:induction false} FirstAreOlder(b: Books, p: PaymentDraft, k: nat, i: nat)
    requires k < |Due(b, p)|
    ensures i in FirstOf(Due(b, p), k) <==> i in OlderOwed(b.items, p.person, Due(b, p)[k])
  {
    var due := Due(b, p);
    DueByFields(b, p);
    assert due[k] in due;
    if i in FirstOf(due, k) {
      var j :| 0 <= j < k && due[j] == i;
      assert due[j] in due;
    }
    if i in OlderOwed(b.items, p.person, due[k]) {
      assert IsDue(b, p, i);
      var j :| 0 <= j < |due| && due[j] == i;
      assert j < k;
    }
  }

  lemma {:induction false} AheadOfDue(b: Books, p: PaymentDraft, k: nat)
    requires k < |Due(b, p)|
    ensures Ahead(b.items, Due(b, p), k) == OwedAhead(b.items, p.person, Due(b, p)[k])
  {
    DueByFields(b, p);
    AheadIsSum(b.items, Due(b, p), k);
    forall i: nat ensures i in FirstOf(Due(b, p), k) <==> i in OlderOwed(b.items, p.person, Due(b, p)[k]) {
      FirstAreOlder(b, p, k, i);
    }
    assert FirstOf(Due(b, p), k) == OlderOwed(b.items, p.person, Due(b, p)[k]);
  }

  // ---------------------------------------------------------------- automatic payments

  predicate PaymentFields(p: PaymentDraft) {
    && p.person != "" && p.amount > 0
    && forall k | 0 <= k < |p.requested| :: p.requested[k].amount > 0
  }

  function LinkedAmount(payments: map<nat, PaymentRow>, t: nat): nat -> int {
    (i: nat) => if i in payments && payments[i].linked == Some(t) then payments[i].amount else 0
  }

  /** What has been received under a transaction. */
  ghost function ReceivedOn(payments: map<nat, PaymentRow>, t: nat): int {
    SumOver(payments.Keys, LinkedAmount(payments, t))
  }

  ghost predicate LinkFits(b: Books, linked: Option<nat>, amount: int) {
    linked.Some? ==>
      && linked.value in b.transactions && b.transactions[linked.value].direction == MoneyIn
      && ReceivedOn(b.payments, linked.value) + amount <= b.transactions[linked.value].amount
  }

  ghost function Below(keys: set<nat>, n: nat): set<nat> {
    set k | k in keys && k < n
  }

  lemma {:induction false} LinkedSum(payments: map<nat, PaymentRow>, t: nat, below: nat)
    ensures PaymentsLinkedTo(payments, t, below) == SumOver(Below(payments.Keys, below), LinkedAmount(payments, t))
  {
    if below > 0 {
      var n := below - 1;
      LinkedSum(payments, t, n);
      if n in payments {
        TakeOut(Below(payments.Keys, below), LinkedAmount(payments, t), n);
        assert Below(payments.Keys, below) - {n} == Below(payments.Keys, n);
      } else {
        assert Below(payments.Keys, below) == Below(payments.Keys, n);
      }
    }
  }

  lemma {:induction false} LinkByFields(b: Books, linked: Option<nat>, amount: int)
    requires PaymentsCover(b)
    ensures LinkAccepts(b, linked, amount) <==> LinkFits(b, linked, amount)
  {
    if linked.Some? {
      LinkedSum(b.payments, linked.value, b.nextPayment);
      assert Below(b.payments.Keys, b.nextPayment) == b.payments.Keys;
    }
  }

  /** What an automatic payment gives an item: nothing if it is not due, and else what it owes or what the older items leave
      of the payment, whichever is less. */
  ghost function AutomaticShare(b: Books, p: PaymentDraft, i: nat): int {
    if !IsDue(b, p, i) then 0
    else
      var left := p.amount - OwedAhead(b.items, p.person, i);
      if left <= 0 then 0 else if left <= b.items[i].remaining then left else b.items[i].remaining
  }

  /** No due item owes nothing while the older ones leave money. */
  ghost predicate NoneBlocks(b: Books, p: PaymentDraft) {
    forall i: nat :: IsDue(b, p, i) && b.items[i].remaining == 0 ==> OwedAhead(b.items, p.person, i) >= p.amount
  }

  /** The item has been paid this much more (or less, if negative), and only amounts, status and stamp have changed; the
      status says what is paid and what remains if anything was paid, and else is what it was. The stamp is today's if
      anything was paid or the item was `named`. */
  ghost predicate PaidMore(was: Item, now: Item, amount: int, named: Option<string>, today: int) {
    && now == was.(paid := now.paid, remaining := now.remaining, status := now.status, updatedOn := now.updatedOn)
    && now.paid == was.paid + amount && now.remaining == was.remaining - amount
    && now.updatedOn == (if amount != 0 || named == Some(was.person) then today else was.updatedOn)
    && (amount == 0 ==> now.status == was.status)
    && (amount != 0 ==> TellsAmounts(now.status, now.paid, now.remaining))
  }

  lemma {:induction false} MovedIsPaidMore(was: Item, amount: int, named: Option<string>, today: int)
    ensures PaidMore(was,
      Moved(if named == Some(was.person) then was.(updatedOn := today) else was, amount, today), amount, named, today)
  {
  }

  lemma {:induction false} BlocksByFields(b: Books, p: PaymentDraft)
    requires Inv(b)
    ensures EachReachedOwes(b.items, Due(b, p), p.amount) <==> NoneBlocks(b, p)
  {
    DueByFields(b, p);
    DueItems(b, p);
    var due := Due(b, p);
    forall k | 0 <= k < |due| ensures Ahead(b.items, due, k) == OwedAhead(b.items, p.person, due[k]) {
      AheadOfDue(b, p, k);
    }
    if EachReachedOwes(b.items, due, p.amount) {
      forall i: nat | IsDue(b, p, i) && b.items[i].remaining == 0 ensures OwedAhead(b.items, p.person, i) >= p.amount {
        var k :| 0 <= k < |due| && due[k] == i;
        assert Owes(b.items, due[k]) == 0;
      }
    }
    if NoneBlocks(b, p) {
      forall k | 0 <= k < |due| && Owes(b.items, due[k]) == 0 ensures Ahead(b.items, due, k) >= p.amount {
        assert due[k] in due && IsDue(b, p, due[k]);
      }
    }
  }

  /** An automatic payment is accepted exactly when its fields are valid, its transaction has room for it, and no due item
      blocks it; then it is stored, and each item gets its share, the oldest first. */
  lemma {:induction false} AutomaticPaymentByFields(b: Books, p: PaymentDraft, today: int)
    requires Inv(b) && p.requested == []
    ensures RecordPayment(b, p, today).Ok? <==> PaymentFields(p) && LinkFits(b, p.linked, p.amount) && NoneBlocks(b, p)
    ensures RecordPayment(b, p, today).Ok? ==>
      var b' := RecordPayment(b, p, today).value;
      && |b'.items| == |b.items|
      && (forall i: nat :: i < |b.items| ==>
            PaidMore(b.items[i], b'.items[i], AutomaticShare(b, p, i), Some(p.person), today))
      && b'.payments == b.payments[b.nextPayment := PaymentRow(p.person, p.date, p.amount, p.linked)]
      && b'.transactions == b.transactions
  {
    LinkByFields(b, p.linked, p.amount);
    BlocksByFields(b, p);
    WaterfallSharesOldestFirst(b, p, today);
    if RecordPayment(b, p, today).Ok? {
      PaymentSettlesGrants(b, p, today);
      forall i: nat | i < |b.items|
        ensures PaidMore(b.items[i], RecordPayment(b, p, today).value.items[i],
                         AutomaticShare(b, p, i), Some(p.person), today)
      {
        ShareByFields(b, p, today, i);
      }
    }
  }

  lemma {:induction false} DueShare(b: Books, p: PaymentDraft, today: int, k: nat)
    requires k < |Due(b, p)|
    ensures Share(Relabelled(b, p.person, today).items, Due(b, p), k, p.amount) == AutomaticShare(b, p, Due(b, p)[k])
  {
    DueByFields(b, p);
    RelabellingIsInvisible(b, p, today);
    AheadOfDue(b, p, k);
    assert Due(b, p)[k] in Due(b, p);
  }

  lemma {:induction false} ShareByFields(b: Books, p: PaymentDraft, today: int, i: nat)
    requires Inv(b) && p.requested == [] && RecordPayment(b, p, today).Ok? && i < |b.items|
    ensures |RecordPayment(b, p, today).value.items| == |b.items|
    ensures PaidMore(b.items[i], RecordPayment(b, p, today).value.items[i],
                     AutomaticShare(b, p, i), Some(p.person), today)
  {
    var named, due := Relabelled(b, p.person, today), Due(b, p);
    WaterfallSharesOldestFirst(b, p, today);
    DueByFields(b, p);
    assert ItemBalances(b.items[i]);
    MovedIsPaidMore(b.items[i], AutomaticShare(b, p, i), Some(p.person), today);
    if i in due {
      var k :| 0 <= k < |due| && due[k] == i;
      DueShare(b, p, today, k);
    }
  }

  /** Whoever is older is paid off before a younger item gets anything. */
  lemma {:induction false} YoungerOnlyAfterOlder(b: Books, p: PaymentDraft, today: int, i: nat, j: nat)
    requires Inv(b) && p.requested == [] && RecordPayment(b, p, today).Ok?
    requires OwedBy(b.items, p.person, i) && j < |b.items| && IsOlder(b.items, i, j)
    ensures var b' := RecordPayment(b, p, today).value;
      |b'.items| == |b.items| && (b'.items[j].paid != b.items[j].paid ==> b'.items[i].remaining == 0)
  {
    AutomaticPaymentByFields(b, p, today);
    var b' := RecordPayment(b, p, today).value;
    assert PaidMore(b.items[i], b'.items[i], AutomaticShare(b, p, i), Some(p.person), today);
    assert PaidMore(b.items[j], b'.items[j], AutomaticShare(b, p, j), Some(p.person), today);
    if AutomaticShare(b, p, j) != 0 {
      assert i in OlderOwed(b.items, p.person, j);
      OlderIsAhead(b.items, p.person, i, j);
    }
  }

  lemma {:induction false} OlderIsAhead(items: seq<Item>, person: string, i: nat, j: nat)
    requires forall k :: 0 <= k < |items| ==> items[k].remaining >= 0
    requires i in OlderOwed(items, person, j)
    ensures OwedAhead(items, person, i) + items[i].remaining <= OwedAhead(items, person, j)
  {
    var f, all := RemainingOf(items), OlderOwed(items, person, j);
    TakeOut(all, f, i);
    assert OlderOwed(items, person, i) <= all - {i};
    FewerTerms(all - {i}, OlderOwed(items, person, i), f);
  }

  lemma {:induction false} FewerTerms(keys: set<nat>, some: set<nat>, f: nat -> int)
    requires some <= keys && forall k :: k in keys ==> f(k) >= 0
    ensures SumOver(some, f) <= SumOver(keys, f)
    decreases |keys|
  {
    if keys != {} {
      var k :| k in keys;
      TakeOut(keys, f, k);
      if k in some {
        TakeOut(some, f, k);
        FewerTerms(keys - {k}, some - {k}, f);
      } else {
        FewerTerms(keys - {k}, some, f);
      }
    }
  }

  // ---------------------------------------------------------------- explicit payments

  /** What a request asks for an item, and in all. */
  function AskedFor(s: seq<Requested>, i: nat): int {
    if |s| == 0 then 0 else (if s[0].item == i then s[0].amount else 0) + AskedFor(s[1..], i)
  }

  function AskedInAll(s: seq<Requested>): int {
    if |s| == 0 then 0 else s[0].amount + AskedInAll(s[1..])
  }

  lemma {:induction false} AskedIsRequested(s: seq<Requested>, i: nat)
    ensures AskedFor(s, i) == RequestedFor(i, s) && AskedInAll(s) == RequestedTotal(s)
  {
    if |s| > 0 {
      AskedIsRequested(s[1..], i);
      RequestedFromFront(i, s);
    }
  }

  /** The requested items are the person's own and visible, none is asked for more than remains, nor all for more than the
      payment. */
  predicate RequestIsCovered(b: Books, p: PaymentDraft) {
    && AskedInAll(p.requested) <= p.amount
    && forall k | 0 <= k < |p.requested| ::
         var i := p.requested[k].item;
         && i < |b.items| && !b.items[i].deleted && b.items[i].person == p.person
         && AskedFor(p.requested, i) <= b.items[i].remaining
  }

  lemma {:induction false} CoveredIsFitting(b: Books, p: PaymentDraft)
    requires |p.requested| > 0
    ensures RequestIsCovered(b, p) <==> RequestFits(b, p.person, p.amount, p.requested)
  {
    AskedIsRequested(p.requested, 0);
    forall k | 0 <= k < |p.requested|
      ensures AskedFor(p.requested, p.requested[k].item) == RequestedFor(p.requested[k].item, p.requested)
    {
      AskedIsRequested(p.requested, p.requested[k].item);
    }
  }

  /** The rows that a payment adds: one for each request, in order, under ascending ids. */
  ghost predicate AddsRows(b: Books, b': Books, payment: nat, s: seq<Requested>) {
    && |b'.allocations| == |b.allocations| + |s| && b.allocations <= b'.allocations
    && forall k :: 0 <= k < |s| ==>
         b'.allocations[|b.allocations| + k] == Allocation(b.nextAllocation + k, payment, s[k].item, s[k].amount)
  }

  /** An explicit payment is accepted exactly when its fields are valid, its transaction has room for it and its request is
      covered; then it is stored with one row for each request, and each item is paid what is asked for it. */
  lemma {:induction false} ExplicitPaymentByFields(b: Books, p: PaymentDraft, today: int)
    requires Inv(b) && |p.requested| > 0
    ensures RecordPayment(b, p, today).Ok? <==>
      PaymentFields(p) && LinkFits(b, p.linked, p.amount) && RequestIsCovered(b, p)
    ensures RecordPayment(b, p, today).Ok? ==>
      var b' := RecordPayment(b, p, today).value;
      && |b'.items| == |b.items|
      && (forall i: nat :: i < |b.items| ==>
            PaidMore(b.items[i], b'.items[i], AskedFor(p.requested, i), Some(p.person), today))
      && AddsRows(b, b', b.nextPayment, p.requested)
      && b'.payments == b.payments[b.nextPayment := PaymentRow(p.person, p.date, p.amount, p.linked)]
      && b'.transactions == b.transactions
  {
    LinkByFields(b, p.linked, p.amount);
    CoveredIsFitting(b, p);
    ExplicitPaymentsApplyInFull(b, p, today);
    if RecordPayment(b, p, today).Ok? {
      var named := Relabelled(b, p.person, today);
      forall i: nat | i < |b.items|
        ensures PaidMore(b.items[i], RecordPayment(b, p, today).value.items[i],
                         AskedFor(p.requested, i), Some(p.person), today)
      {
        AskedIsRequested(p.requested, i);
        MovedIsPaidMore(b.items[i], AskedFor(p.requested, i), Some(p.person), today);
      }
    }
  }

  // ---------------------------------------------------------------- the log of a payment

  /** The entry of the `k`th grant: a payment on the payment's date, with what has been paid by then. */
  ghost predicate LogsGrant(e: OwedEvent, item: Item, s: seq<Requested>, k: nat, date: int)
    requires k < |s|
  {
    && e.item == s[k].item && e.eventType == Payment && e.date == date
    && e.total == item.total && e.paid == item.paid + AskedFor(s[..k + 1], s[k].item) && e.remaining == e.total - e.paid
    && TellsAmounts(e.status, e.paid, e.remaining)
  }

  ghost predicate LogsGrants(b: Books, b': Books, s: seq<Requested>, date: int) {
    && b.events <= b'.events && |b'.events| == |b.events| + |s|
    && forall k :: 0 <= k < |s| ==>
         s[k].item < |b.items| && LogsGrant(b'.events[|b.events| + k], b.items[s[k].item], s, k, date)
  }

  lemma {:induction false} GrantsAreLogged(b: Books, payment: nat, s: seq<Requested>, left: int, today: int)
    requires payment in b.payments && RequestedExist(b, s) && ApplyRequested(b, payment, s, left, today).Ok?
    ensures LogsGrants(b, ApplyRequested(b, payment, s, left, today).value, s, b.payments[payment].date)
    decreases |s|
  {
    if |s| > 0 {
      var b1 := Allocate(b, payment, s[0].item, s[0].amount, left, today).value;
      var b' := ApplyRequested(b, payment, s, left, today).value;
      GrantsAreLogged(b1, payment, s[1..], left - s[0].amount, today);
      forall k | 0 <= k < |s|
        ensures LogsGrant(b'.events[|b.events| + k], b.items[s[k].item], s, k, b.payments[payment].date)
      {
        assert s[..k + 1][1..] == s[1..][..k] && s[..k + 1][0] == s[0];
        if k == 0 {
          assert AskedFor(s[1..][..0], s[0].item) == 0;
          assert b'.events[|b.events|] == b1.events[|b.events|];
        } else {
          assert LogsGrant(b'.events[|b1.events| + (k - 1)], b1.items[s[1..][k - 1].item], s[1..], k - 1,
                           b.payments[payment].date);
        }
      }
    }
  }

  /** Every accepted payment is the application of its grants. */
  lemma {:induction false} PaymentAppliesGrants(b: Books, p: PaymentDraft, today: int)
    requires Inv(b) && RecordPayment(b, p, today).Ok?
    ensures var paid := WithPayment(Relabelled(b, p.person, today), p);
      && RequestedExist(paid, GrantsOf(b, p))
      && RecordPayment(b, p, today) == ApplyRequested(paid, b.nextPayment, GrantsOf(b, p), p.amount, today)
  {
    var named := Relabelled(b, p.person, today);
    OwedMoves.RelabelKeeps(b, p.person, today);
    if |p.requested| > 0 {
      ValidatedItemsExist(named, p.person, p.amount, p.requested);
    } else {
      RelabellingIsInvisible(b, p, today);
      DueItems(named, p);
      StandingBooks(named);
      PlanFits(named, Due(named, p), p.amount);
      OldestFirst(named.items, p.person);
      OpenItemsExist(named.items, p.person);
      WaterfallFollowsPlan(WithPayment(named, p), b.nextPayment, ListOpenByPerson(named.items, p.person), p.stopBefore,
                           p.amount, today);
    }
  }

  lemma {:induction false} SameAmountsSameLog(b: Books, named: Books, b': Books, s: seq<Requested>, date: int)
    requires LogsGrants(named, b', s, date) && named.events == b.events && |named.items| == |b.items|
    requires forall i :: 0 <= i < |b.items| ==> named.items[i] == b.items[i].(updatedOn := named.items[i].updatedOn)
    ensures LogsGrants(b, b', s, date)
  {
    forall k | 0 <= k < |s|
      ensures s[k].item < |b.items| && LogsGrant(b'.events[|b.events| + k], b.items[s[k].item], s, k, date)
    {
      assert LogsGrant(b'.events[|named.events| + k], named.items[s[k].item], s, k, date);
    }
  }

  /** The log of a payment: one entry for each of its grants, in order. */
  lemma {:induction false} PaymentIsLogged(b: Books, p: PaymentDraft, today: int)
    requires Inv(b) && RecordPayment(b, p, today).Ok?
    ensures LogsGrants(b, RecordPayment(b, p, today).value, GrantsOf(b, p), p.date)
  {
    var paid := WithPayment(Relabelled(b, p.person, today), p);
    PaymentAppliesGrants(b, p, today);
    GrantsAreLogged(paid, b.nextPayment, GrantsOf(b, p), p.amount, today);
    SameAmountsSameLog(b, paid, RecordPayment(b, p, today).value, GrantsOf(b, p), p.date);
  }

  // ---------------------------------------------------------------- reversals

  /** What a payment was allocated to an item. */
  function PaidFrom(s: seq<Allocation>, payment: nat, i: nat): int {
    if |s| == 0 then 0
    else
      var a := s[|s| - 1];
      PaidFrom(s[..|s| - 1], payment, i) + if a.payment == payment && a.item == i then a.amount else 0
  }

  function OfOthers(payment: nat): Allocation -> bool {
    (a: Allocation) => a.payment != payment
  }

  lemma {:induction false} PaidFromIsAllocated(s: seq<Allocation>, payment: nat, i: nat)
    ensures PaidFrom(s, payment, i) == AllocatedOf(Keep(OfPayments([payment]), s), i)
  {
    if |s| > 0 {
      PaidFromIsAllocated(s[..|s| - 1], payment, i);
      KeptSum(OfPayments([payment]), s, i);
    }
  }

  /** The payment's items are visible and have been paid what it gave them. */
  ghost predicate CanBeTakenBack(b: Books, payment: nat) {
    && (forall k :: 0 <= k < |b.allocations| && b.allocations[k].payment == payment ==>
          Visible(b, b.allocations[k].item))
    && (forall i: nat :: i < |b.items| ==> PaidFrom(b.allocations, payment, i) <= b.items[i].paid)
  }

  lemma {:induction false} TakenBackByFields(b: Books, payment: nat)
    ensures CanBeTakenBack(b, payment) <==> Returnable(b, Keep(OfPayments([payment]), b.allocations))
  {
    var s := Keep(OfPayments([payment]), b.allocations);
    KeepMembers(OfPayments([payment]), b.allocations);
    forall i: nat ensures PaidFrom(b.allocations, payment, i) == AllocatedOf(s, i) {
      PaidFromIsAllocated(b.allocations, payment, i);
    }
    if ShowsAll(b, s) {
      forall k | 0 <= k < |b.allocations| && b.allocations[k].payment == payment ensures Visible(b, b.allocations[k].item) {
        assert b.allocations[k] in s;
      }
    }
    if CanBeTakenBack(b, payment) {
      forall k | 0 <= k < |s| ensures Visible(b, s[k].item) {
        assert s[k] in s;
        assert s[k] in b.allocations;
      }
    }
  }

  lemma {:induction false} TakenBackItem(b: Books, b': Books, payment: nat, today: int, i: nat)
    requires GivenBack(b, b', Keep(OfPayments([payment]), b.allocations), today) && i < |b.items|
    ensures PaidMore(b.items[i], b'.items[i], -PaidFrom(b.allocations, payment, i), None, today)
  {
    PaidFromIsAllocated(b.allocations, payment, i);
    MovedIsPaidMore(b.items[i], -PaidFrom(b.allocations, payment, i), None, today);
  }

  lemma {:induction false} DeletableByFields(b: Books, payment: nat)
    ensures AllDeletable(b, [payment]) <==> payment in b.payments && CanBeTakenBack(b, payment)
  {
    TakenBackByFields(b, payment);
    assert [payment][0] == payment;
  }

  /** Every item has been taken back what the payment gave it, and the payment and its rows are gone. */
  ghost predicate TakesBack(b: Books, b': Books, payment: nat, today: int) {
    && |b'.items| == |b.items|
    && (forall i: nat :: i < |b.items| ==>
            PaidMore(b.items[i], b'.items[i], -PaidFrom(b.allocations, payment, i), None, today))
    && b'.payments == b.payments - {payment} && b'.allocations == Keep(OfOthers(payment), b.allocations)
    && b'.transactions == b.transactions
  }

  lemma {:induction false} UndoneByFields(b: Books, b': Books, payment: nat, today: int)
    requires Undone(b, b', [payment], today)
    ensures TakesBack(b, b', payment, today)
  {
    KeepAgree(NotOfPayments([payment]), OfOthers(payment), b.allocations);
    assert Among([payment]) == {payment};
    forall i: nat | i < |b.items|
      ensures PaidMore(b.items[i], b'.items[i], -PaidFrom(b.allocations, payment, i), None, today)
    {
      TakenBackItem(b, b', payment, today, i);
    }
  }

  lemma {:induction false} DeletionTakesBack(b: Books, payment: nat, today: int)
    requires Inv(b) && DeletePayment(b, payment, today).Ok?
    ensures TakesBack(b, DeletePayment(b, payment, today).value, payment, today)
  {
    SteadyBooks(b);
    DeletionGivesBack(b, payment, today);
    UndoneByFields(b, DeletePayment(b, payment, today).value, payment, today);
  }

  lemma {:induction false} DeletionIsPossible(b: Books, payment: nat, today: int)
    requires Inv(b)
    ensures DeletePayment(b, payment, today).Ok? <==> payment in b.payments && CanBeTakenBack(b, payment)
  {
    SteadyBooks(b);
    DeletionGivesBack(b, payment, today);
    DeletableByFields(b, payment);
  }

  /** A payment can be deleted exactly when it is there and what it gave can be taken back, which then happens. */
  lemma {:induction false} DeletePaymentByFields(b: Books, payment: nat, today: int)
    requires Inv(b)
    ensures payment !in b.payments ==> DeletePayment(b, payment, today) == Refused(404)
    ensures DeletePayment(b, payment, today).Ok? <==> payment in b.payments && CanBeTakenBack(b, payment)
    ensures DeletePayment(b, payment, today).Ok? ==> TakesBack(b, DeletePayment(b, payment, today).value, payment, today)
  {
    DeletionIsPossible(b, payment, today);
    if DeletePayment(b, payment, today).Ok? {
      DeletionTakesBack(b, payment, today);
    }
  }

  ghost predicate LogsReversal(e: OwedEvent, a: Allocation, today: int) {
    && e.item == a.item && e.eventType == PaymentReversed && e.date == today
    && e.remaining == e.total - e.paid && TellsAmounts(e.status, e.paid, e.remaining)
  }

  ghost predicate LogsReversals(b: Books, b': Books, s: seq<Allocation>, today: int) {
    && b.events <= b'.events && |b'.events| == |b.events| + |s|
    && forall k :: 0 <= k < |s| ==> LogsReversal(b'.events[|b.events| + k], s[k], today)
  }

  /** Each row given back is logged as a payment reversed today. */
  lemma {:induction false} ReversalsAreLogged(b: Books, s: seq<Allocation>, today: int)
    requires ReverseAll(b, s, today).Ok?
    ensures LogsReversals(b, ReverseAll(b, s, today).value, s, today)
    decreases |s|
  {
    if |s| > 0 {
      var b1, b' := ReverseOne(b, s[0], today).value, ReverseAll(b, s, today).value;
      ReversalsAreLogged(b1, s[1..], today);
      assert b'.events[|b.events|] == b1.events[|b.events|];
      forall k | 0 <= k < |s| ensures LogsReversal(b'.events[|b.events| + k], s[k], today) {
        if k > 0 { assert LogsReversal(b'.events[|b1.events| + (k - 1)], s[1..][k - 1], today); }
      }
    }
  }

  /** The log of a deleted payment: one entry for each of its rows, in order. */
  lemma {:induction false} DeletionIsLogged(b: Books, payment: nat, today: int)
    requires DeletePayment(b, payment, today).Ok?
    ensures LogsReversals(b, DeletePayment(b, payment, today).value, Keep(OfPayment(payment), b.allocations), today)
  {
    ReversalsAreLogged(b, Keep(OfPayment(payment), b.allocations), today);
  }

  // ---------------------------------------------------------------- refused payments

  lemma {:induction false} FailureStands(b: Books, person: string, amount: int, s: seq<Requested>, n: nat)
    requires n <= |s| && ValidateRequested(b, person, amount, s[..n]).Refused?
    ensures ValidateRequested(b, person, amount, s) == ValidateRequested(b, person, amount, s[..n])
    decreases |s|
  {
    if n == |s| {
      assert s[..n] == s;
    } else {
      assert s[..|s| - 1][..n] == s[..n];
      FailureStands(b, person, amount, s[..|s| - 1], n);
    }
  }

  lemma {:induction false} FirstFailure(b: Books, person: string, amount: int, s: seq<Requested>, k: nat)
    requires AllPositive(s) && k < |s|
    requires RequestFits(b, person, amount, s[..k]) && !RequestFits(b, person, amount, s[..k + 1])
    ensures ValidateRequested(b, person, amount, s) == Refused(if Visible(b, s[k].item) then 400 else 404)
  {
    var t := s[..k + 1];
    assert t[..|t| - 1] == s[..k] && t[|t| - 1] == s[k];
    ValidationIsFinalTotals(b, person, amount, s[..k]);
    ValidationIsFinalTotals(b, person, amount, t);
    FailureStands(b, person, amount, s, k + 1);
  }

  lemma {:induction false} CoverIsFit(b: Books, p: PaymentDraft, n: nat)
    requires n <= |p.requested| && p.amount >= 0
    ensures RequestIsCovered(b, p.(requested := p.requested[..n])) <==> RequestFits(b, p.person, p.amount, p.requested[..n])
  {
    if n > 0 { CoveredIsFitting(b, p.(requested := p.requested[..n])); }
  }

  /** The first request that is not covered decides how a payment is refused: not found if its item is gone, and else as a
      bad request. */
  lemma {:induction false} UncoveredIsRefused(b: Books, p: PaymentDraft, today: int, k: nat)
    requires Inv(b) && PaymentFields(p) && LinkFits(b, p.linked, p.amount) && k < |p.requested|
    requires RequestIsCovered(b, p.(requested := p.requested[..k]))
    requires !RequestIsCovered(b, p.(requested := p.requested[..k + 1]))
    ensures RecordPayment(b, p, today) == Refused(if Visible(b, p.requested[k].item) then 400 else 404)
  {
    var named := Relabelled(b, p.person, today);
    LinkByFields(b, p.linked, p.amount);
    CoverIsFit(b, p, k);
    CoverIsFit(b, p, k + 1);
    RelabellingFitsAlike(b, p.person, p.amount, p.requested[..k], today);
    RelabellingFitsAlike(b, p.person, p.amount, p.requested[..k + 1], today);
    FirstFailure(named, p.person, p.amount, p.requested, k);
  }

  ghost predicate ItemsBalance(items: seq<Item>) {
    forall i :: 0 <= i < |items| ==> ItemBalances(items[i])
  }

  lemma {:induction false} WaterfallOnlyAborts(b: Books, payment: nat, ids: seq<nat>, stop: Option<nat>, left: int,
                                               today: int)
    requires payment in b.payments && AllExist(b, ids) && ItemsBalance(b.items)
    requires Waterfall(b, payment, ids, stop, left, today).Refused?
    ensures Waterfall(b, payment, ids, stop, left, today) == Refused(500)
    decreases |ids|
  {
    assert ItemBalances(b.items[ids[0]]);
    var amount := if left <= b.items[ids[0]].remaining then left else b.items[ids[0]].remaining;
    if Allocate(b, payment, ids[0], amount, left, today).Ok? {
      var b' := Allocate(b, payment, ids[0], amount, left, today).value;
      WaterfallOnlyAborts(b', payment, ids[1..], stop, left - amount, today);
    }
  }

  /** Invalid fields make a payment unprocessable, a transaction that has no room a bad request, and a blocked automatic
      payment fails on the tables' own constraints; nothing is stored then. */
  lemma {:induction false} RefusedPayments(b: Books, p: PaymentDraft, today: int)
    requires Inv(b)
    ensures !PaymentFields(p) ==> RecordPayment(b, p, today) == Refused(422)
    ensures PaymentFields(p) && !LinkFits(b, p.linked, p.amount) ==> RecordPayment(b, p, today) == Refused(400)
    ensures PaymentFields(p) && LinkFits(b, p.linked, p.amount) && p.requested == [] && !NoneBlocks(b, p) ==>
      RecordPayment(b, p, today) == Refused(500)
  {
    LinkByFields(b, p.linked, p.amount);
    if p.requested == [] && PaymentFields(p) && LinkFits(b, p.linked, p.amount) && !NoneBlocks(b, p) {
      var named := Relabelled(b, p.person, today);
      AutomaticPaymentByFields(b, p, today);
      OwedMoves.RelabelKeeps(b, p.person, today);
      OpenItemsExist(named.items, p.person);
      assert ItemsBalance(named.items);
      WaterfallOnlyAborts(WithPayment(named, p), b.nextPayment, ListOpenByPerson(named.items, p.person), p.stopBefore,
                          p.amount, today);
    }
  }

  // ---------------------------------------------------------------- refused deletions

  lemma {:induction false} ReverseOneMore(b: Books, s: seq<Allocation>, k: nat, today: int)
    requires k < |s| && ReverseAll(b, s[..k], today).Ok?
    ensures ReverseAll(b, s[..k + 1], today) == ReverseOne(ReverseAll(b, s[..k], today).value, s[k], today)
    decreases |s|
  {
    if k > 0 {
      assert s[..k][1..] == s[1..][..k - 1] && s[..k + 1][1..] == s[1..][..k];
      ReverseOneMore(ReverseOne(b, s[0], today).value, s[1..], k - 1, today);
    }
  }

  lemma {:induction false} ReversalStops(b: Books, s: seq<Allocation>, n: nat, today: int)
    requires n <= |s| && ReverseAll(b, s[..n], today).Refused?
    ensures ReverseAll(b, s, today) == ReverseAll(b, s[..n], today)
    decreases |s|
  {
    if ReverseOne(b, s[0], today).Ok? {
      assert s[..n][1..] == s[1..][..n - 1];
      ReversalStops(ReverseOne(b, s[0], today).value, s[1..], n - 1, today);
    }
  }

  lemma {:induction false} OneReversalFails(b: Books, a: Allocation, today: int)
    requires ItemsStand(b) && a.amount > 0 && ReverseOne(b, a, today).Refused?
    ensures ReverseOne(b, a, today) == Refused(if Visible(b, a.item) then 500 else 400)
  {
    assert a.item < |b.items| ==> ItemBalances(b.items[a.item]);
  }

  lemma {:induction false} FirstReversalFails(b: Books, s: seq<Allocation>, k: nat, today: int)
    requires ItemsStand(b) && PositiveRows(s) && k < |s| && Returnable(b, s[..k]) && !Returnable(b, s[..k + 1])
    ensures ReverseAll(b, s, today) == Refused(if Visible(b, s[k].item) then 500 else 400)
  {
    ReversalsGiveBack(b, s[..k], today);
    ReversalsGiveBack(b, s[..k + 1], today);
    ReverseOneMore(b, s, k, today);
    OneReversalFails(ReverseAll(b, s[..k], today).value, s[k], today);
    ReversalStops(b, s, k + 1, today);
  }

  /** The first of a payment's allocations that cannot be given back decides how its deletion is refused: a bad request if
      its item is gone, and else a failure on the tables' own constraints. */
  lemma {:induction false} UndeletableIsRefused(b: Books, payment: nat, today: int, k: nat)
    requires Inv(b) && payment in b.payments && k < |Keep(OfPayment(payment), b.allocations)|
    requires Returnable(b, Keep(OfPayment(payment), b.allocations)[..k])
    requires !Returnable(b, Keep(OfPayment(payment), b.allocations)[..k + 1])
    ensures DeletePayment(b, payment, today)
         == Refused(if Visible(b, Keep(OfPayment(payment), b.allocations)[k].item) then 500 else 400)
  {
    SteadyBooks(b);
    RowsArePositive(b, OfPayment(payment));
    FirstReversalFails(b, Keep(OfPayment(payment), b.allocations), k, today);
  }
}
