/** Payments: explicit allocations, the oldest-first waterfall, and reversal. */
module OwedPayments {
  import opened Outcomes
  import opened Ordering
  import opened OwedBooks

  datatype Requested = Requested(item: nat, amount: int)

  datatype PaymentDraft = PaymentDraft(
    person: string, date: int, amount: int, linked: Option<nat>,
    stopBefore: Option<nat>, requested: seq<Requested>)

  /** Move `amount` of a payment, of which `left` is unspent, to an item. */
  function Allocate(b: Books, payment: nat, id: nat, amount: int, left: int, today: int): Result<Books>
    requires payment in b.payments && id < |b.items|
  {
    var item := b.items[id];
    if amount > left || amount > item.remaining then Refused(BAD_REQUEST)
    else if amount <= 0 then Refused(ABORTED)
    else
      var remaining :- CalculateRemaining(item.total, item.paid + amount);
      var next := item.(paid := item.paid + amount, remaining := remaining,
                        status := CalculateStatus(item.paid + amount, remaining), updatedOn := today);
      var posted :- Post(b, id, next, Payment, b.payments[payment].date);
      Ok(posted.(allocations := b.allocations + [Allocation(b.nextAllocation, payment, id, amount)],
                 nextAllocation := b.nextAllocation + 1))
  }

  // ---------------------------------------------------------------- explicit allocations

  function RequestedTotal(s: seq<Requested>): int {
    if |s| == 0 then 0 else RequestedTotal(s[..|s| - 1]) + s[|s| - 1].amount
  }

  function RequestedFor(id: nat, s: seq<Requested>): int {
    if |s| == 0 then 0
    else RequestedFor(id, s[..|s| - 1]) + if s[|s| - 1].item == id then s[|s| - 1].amount else 0
  }

  /** The check made before anything is written: running totals against the untouched items. */
  function ValidateRequested(b: Books, person: string, amount: int, s: seq<Requested>): Result<()> {
    if |s| == 0 then Ok(())
    else
      var _ :- ValidateRequested(b, person, amount, s[..|s| - 1]);
      var last := s[|s| - 1];
      if !Visible(b, last.item) then Refused(NOT_FOUND)
      else if b.items[last.item].person != person
           || RequestedTotal(s) > amount
           || RequestedFor(last.item, s) > b.items[last.item].remaining then Refused(BAD_REQUEST)
      else Ok(())
  }

  predicate RequestedExist(b: Books, s: seq<Requested>) {
    forall i | 0 <= i < |s| :: s[i].item < |b.items|
  }

  predicate AllExist(b: Books, ids: seq<nat>) {
    forall i | 0 <= i < |ids| :: ids[i] < |b.items|
  }

  function ApplyRequested(b: Books, payment: nat, s: seq<Requested>, left: int, today: int): Result<Books>
    requires payment in b.payments && RequestedExist(b, s)
    decreases |s|
  {
    if |s| == 0 then Ok(b)
    else
      var b' :- Allocate(b, payment, s[0].item, s[0].amount, left, today);
      ApplyRequested(b', payment, s[1..], left - s[0].amount, today)
  }

  // ---------------------------------------------------------------- waterfall

  function OpenFor(items: seq<Item>, person: string): nat -> bool {
    (i: nat) => i < |items| && items[i].person == person && !items[i].deleted && IsActive(items[i].status)
  }

  function CreatedOrder(items: seq<Item>): nat -> Rank {
    (i: nat) => Rank(if i < |items| then items[i].createdAt else 0, i)
  }

  function Ids(n: nat): seq<nat> {
    seq(n, (i: nat) => i)
  }

  /** Ids of a person's active items, oldest first. */
  function ListOpenByPerson(items: seq<Item>, person: string): seq<nat> {
    SortBy(CreatedOrder(items), Keep(OpenFor(items, person), Ids(|items|)))
  }

  function Waterfall(b: Books, payment: nat, ids: seq<nat>, stop: Option<nat>, left: int, today: int): Result<Books>
    requires payment in b.payments && AllExist(b, ids)
    decreases |ids|
  {
    if |ids| == 0 || stop == Some(ids[0]) || left <= 0 then Ok(b)
    else
      var amount := if left <= b.items[ids[0]].remaining then left else b.items[ids[0]].remaining;
      var b' :- Allocate(b, payment, ids[0], amount, left, today);
      Waterfall(b', payment, ids[1..], stop, left - amount, today)
  }

  // ---------------------------------------------------------------- record

  function PaymentsLinkedTo(payments: map<nat, PaymentRow>, transaction: nat, below: nat): int {
    if below == 0 then 0
    else PaymentsLinkedTo(payments, transaction, below - 1)
         + if below - 1 in payments && payments[below - 1].linked == Some(transaction)
           then payments[below - 1].amount else 0
  }

  predicate LinkAccepts(b: Books, linked: Option<nat>, amount: int) {
    linked.Some? ==>
      && linked.value in b.transactions
      && b.transactions[linked.value].direction.MoneyIn?
      && PaymentsLinkedTo(b.payments, linked.value, b.nextPayment) + amount <= b.transactions[linked.value].amount
  }

  predicate AllPositive(s: seq<Requested>) {
    forall i | 0 <= i < |s| :: s[i].amount > 0
  }

  predicate PaymentSchemaAccepts(p: PaymentDraft) {
    p.person != "" && p.amount > 0 && AllPositive(p.requested)
  }

  function WithPayment(b: Books, p: PaymentDraft): Books {
    b.(payments := b.payments[b.nextPayment := PaymentRow(p.person, p.date, p.amount, p.linked)],
       nextPayment := b.nextPayment + 1)
  }

  lemma {:induction false} ValidatedItemsExist(b: Books, person: string, amount: int, s: seq<Requested>)
    requires ValidateRequested(b, person, amount, s).Ok?
    ensures RequestedExist(b, s)
  {
    if |s| > 0 {
      ValidatedItemsExist(b, person, amount, s[..|s| - 1]);
    }
  }

  lemma {:induction false} OpenItemsExist(items: seq<Item>, person: string)
    ensures forall i :: 0 <= i < |ListOpenByPerson(items, person)| ==>
      OpenFor(items, person)(ListOpenByPerson(items, person)[i])
  {
    var kept := Keep(OpenFor(items, person), Ids(|items|));
    var ids := ListOpenByPerson(items, person);
    KeepMembers(OpenFor(items, person), Ids(|items|));
    SortSorts(CreatedOrder(items), kept);
    forall i | 0 <= i < |ids| ensures OpenFor(items, person)(ids[i]) {
      assert ids[i] in multiset(ids);
      assert ids[i] in kept;
    }
  }

  /** The bulk update that gives a person's rows one label; labels being canonical, it only stamps the items. */
  function Relabelled(b: Books, person: string, today: int): Books {
    b.(items := Project(Stamped(person, today), b.items))
  }

  function Stamped(person: string, today: int): Item -> Item {
    (i: Item) => if i.person == person then i.(updatedOn := today) else i
  }

  /** What follows once the person's rows carry one label. */
  function SettlePayment(b: Books, p: PaymentDraft, today: int): Result<Books> {
    if !PaymentSchemaAccepts(p) then Refused(UNPROCESSABLE)
    else if !LinkAccepts(b, p.linked, p.amount) then Refused(BAD_REQUEST)
    else
      var _ :- ValidateRequested(b, p.person, p.amount, p.requested);
      var b' := WithPayment(b, p);
      if |p.requested| > 0 then
        ValidatedItemsExist(b, p.person, p.amount, p.requested);
        ApplyRequested(b', b.nextPayment, p.requested, p.amount, today)
      else
        OpenItemsExist(b.items, p.person);
        Waterfall(b', b.nextPayment, ListOpenByPerson(b.items, p.person), p.stopBefore, p.amount, today)
  }

  function RecordPayment(b: Books, p: PaymentDraft, today: int): Result<Books> {
    SettlePayment(Relabelled(b, p.person, today), p, today)
  }

  // ---------------------------------------------------------------- reverse

  function OfPayment(payment: nat): Allocation -> bool {
    (a: Allocation) => a.payment == payment
  }

  function OfItem(id: nat): Allocation -> bool {
    (a: Allocation) => a.item == id
  }

  function OtherThan(id: nat): Allocation -> bool {
    (a: Allocation) => a.id != id
  }

  function ReverseOne(b: Books, a: Allocation, today: int): Result<Books> {
    if !Visible(b, a.item) then Refused(BAD_REQUEST)
    else
      var item := b.items[a.item];
      var remaining :- CalculateRemaining(item.total, item.paid - a.amount);
      var next := item.(paid := item.paid - a.amount, remaining := remaining,
                        status := CalculateStatus(item.paid - a.amount, remaining), updatedOn := today);
      var posted :- Post(b, a.item, next, PaymentReversed, today);
      Ok(posted.(allocations := Keep(OtherThan(a.id), b.allocations)))
  }

  function ReverseAll(b: Books, s: seq<Allocation>, today: int): Result<Books>
    decreases |s|
  {
    if |s| == 0 then Ok(b)
    else
      var b' :- ReverseOne(b, s[0], today);
      ReverseAll(b', s[1..], today)
  }

  function DeletePayment(b: Books, payment: nat, today: int): Result<Books> {
    if payment !in b.payments then Refused(NOT_FOUND)
    else
      var b' :- ReverseAll(b, Keep(OfPayment(payment), b.allocations), today);
      Ok(b'.(payments := b'.payments - {payment}))
  }
}
