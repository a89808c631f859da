/** Money owed to the user: the tables, and the steps on single items. Amounts are integer cents. */
module OwedBooks {
  import opened Outcomes

  datatype Status = Open | PartiallyPaid | Paid | Cancelled
  datatype EventType = Created | Adjusted | Payment | PaymentReversed | Cancellation | Reopened | Deletion

  /** A client-given hash, or the injective digest of transaction, person and source. */
  datatype DedupeKey = Given(hash: string) | Derived(transaction: nat, person: string, source: string)

  datatype Item = Item(
    person: string, total: int, paid: int, remaining: int, status: Status,
    linked: Option<nat>, dedupe: Option<DedupeKey>, createdAt: int, updatedOn: int, deleted: bool)

  datatype OwedEvent = OwedEvent(
    item: nat, eventType: EventType, date: int, total: int, paid: int, remaining: int, status: Status)

  datatype PaymentRow = PaymentRow(person: string, date: int, amount: int, linked: Option<nat>)
  datatype Allocation = Allocation(id: nat, payment: nat, item: nat, amount: int)
  datatype Direction = MoneyIn | MoneyOut
  datatype Transaction = Transaction(direction: Direction, amount: int, date: int)

  /** The tables of one user. An item's id is its position; events are in order of their ids. */
  datatype Books = Books(
    items: seq<Item>,
    payments: map<nat, PaymentRow>,
    allocations: seq<Allocation>,
    events: seq<OwedEvent>,
    transactions: map<nat, Transaction>,
    nextPayment: nat,
    nextAllocation: nat)

  const EMPTY_BOOKS := Books([], map[], [], [], map[], 0, 0)

  function CalculateRemaining(total: int, paid: int): Result<int> {
    if paid > total then Refused(BAD_REQUEST) else Ok(total - paid)
  }

  function CalculateStatus(paid: int, remaining: int): Status {
    if remaining == 0 then Paid else if paid > 0 then PartiallyPaid else Open
  }

  predicate IsActive(s: Status) {
    s.Open? || s.PartiallyPaid?
  }

  /** The CHECK constraints on an item row, and equally on an event row. */
  predicate RowChecks(total: int, paid: int, remaining: int) {
    total > 0 && paid >= 0 && remaining >= 0 && -1 <= paid + remaining - total <= 1
  }

  /** The foreign key to transactions and the unique index on dedupe keys. */
  predicate ReferencesHold(b: Books, id: nat, item: Item) {
    && (item.linked.Some? ==> item.linked.value in b.transactions)
    && (item.dedupe.Some? ==> forall j | 0 <= j < |b.items| && j != id :: b.items[j].dedupe != item.dedupe)
  }

  function EventFor(id: nat, item: Item, eventType: EventType, date: int): OwedEvent {
    OwedEvent(id, eventType, date, item.total, item.paid, item.remaining, item.status)
  }

  predicate Visible(b: Books, id: nat) {
    id < |b.items| && !b.items[id].deleted
  }

  /** Replace an item and append an event carrying its amounts and status. */
  function Post(b: Books, id: nat, item: Item, eventType: EventType, date: int): Result<Books>
    requires id < |b.items|
  {
    if !RowChecks(item.total, item.paid, item.remaining) || !ReferencesHold(b, id, item) then Refused(ABORTED)
    else Ok(b.(items := b.items[id := item], events := b.events + [EventFor(id, item, eventType, date)]))
  }

  // ---------------------------------------------------------------- create

  datatype ItemDraft = ItemDraft(
    person: string, total: int, paid: int, dueDate: Option<int>, linked: Option<nat>,
    source: string, dedupe: Option<DedupeKey>)

  function WithDedupeKey(d: ItemDraft): Option<DedupeKey> {
    if d.dedupe.Some? || d.linked.None? then d.dedupe else Some(Derived(d.linked.value, d.person, d.source))
  }

  predicate KeyIsTaken(items: seq<Item>, key: Option<DedupeKey>) {
    key.Some? && exists j :: 0 <= j < |items| && items[j].dedupe == key
  }

  /** Sum of the totals of a transaction's live items, optionally leaving one out. */
  function LinkedOwedTotal(items: seq<Item>, transaction: nat, excluded: Option<nat>): int {
    if |items| == 0 then 0
    else
      var last := items[|items| - 1];
      LinkedOwedTotal(items[..|items| - 1], transaction, excluded)
      + if last.linked == Some(transaction) && !last.deleted && !last.status.Cancelled?
           && excluded != Some(|items| - 1) then last.total else 0
  }

  /** The linked-transaction capacity check. */
  predicate HasCapacity(b: Books, linked: Option<nat>, total: int, status: Status, excluded: Option<nat>) {
    if linked.None? || status.Cancelled? then true
    else
      && linked.value in b.transactions
      && b.transactions[linked.value].direction.MoneyOut?
      && LinkedOwedTotal(b.items, linked.value, excluded) + total <= b.transactions[linked.value].amount
  }

  function EffectiveDate(b: Books, d: ItemDraft, today: int): int {
    if d.linked.Some? && d.linked.value in b.transactions then b.transactions[d.linked.value].date
    else d.dueDate.GetOr(today)
  }

  predicate ItemSchemaAccepts(d: ItemDraft) {
    d.person != "" && d.total > 0 && d.paid >= 0
  }

  function CreateItem(b: Books, d: ItemDraft, now: int, today: int): Result<Books> {
    if !ItemSchemaAccepts(d) then Refused(UNPROCESSABLE)
    else if KeyIsTaken(b.items, WithDedupeKey(d)) then Refused(CONFLICT)
    else
      var remaining :- CalculateRemaining(d.total, d.paid);
      var status := CalculateStatus(d.paid, remaining);
      if !HasCapacity(b, d.linked, d.total, status, None) then Refused(BAD_REQUEST)
      else
        var item := Item(d.person, d.total, d.paid, remaining, status, d.linked, WithDedupeKey(d), now, today, false);
        Ok(b.(items := b.items + [item],
              events := b.events + [EventFor(|b.items|, item, Created, EffectiveDate(b, d, today))]))
  }

  // ---------------------------------------------------------------- update and delete

  datatype ItemPatch = ItemPatch(
    person: Option<string>, total: Option<int>, paid: Option<int>, status: Option<Status>,
    linked: Change<Option<nat>>, dedupe: Change<Option<DedupeKey>>)

  function UpdateEventType(previous: Status, next: Status): EventType {
    if !previous.Cancelled? && next.Cancelled? then Cancellation
    else if previous.Cancelled? && !next.Cancelled? then Reopened
    else Adjusted
  }

  /** The link the capacity check looks at: clearing the link still checks the old one. */
  function CheckedLink(item: Item, p: ItemPatch): Option<nat> {
    if p.linked.Set? && p.linked.value.Some? then p.linked.value else item.linked
  }

  function UpdateItem(b: Books, id: nat, p: ItemPatch, today: int): Result<Books> {
    if p.person == Some("") || p.total.GetOr(1) <= 0 || p.paid.GetOr(0) < 0 then Refused(UNPROCESSABLE)
    else if !Visible(b, id) then Refused(NOT_FOUND)
    else
      var item := b.items[id];
      var total, paid := p.total.GetOr(item.total), p.paid.GetOr(item.paid);
      var remaining :- CalculateRemaining(total, paid);
      var status := p.status.GetOr(CalculateStatus(paid, remaining));
      if !HasCapacity(b, CheckedLink(item, p), total, status, Some(id)) then Refused(BAD_REQUEST)
      else
        var next := item.(person := p.person.GetOr(item.person), total := total, paid := paid, remaining := remaining,
                          status := status, linked := p.linked.Over(item.linked), dedupe := p.dedupe.Over(item.dedupe),
                          updatedOn := today);
        var posted :- Post(b, id, next, UpdateEventType(item.status, status), today);
        if total != item.total || paid != item.paid || status != item.status then Ok(posted)
        else Ok(posted.(events := b.events))
  }

  function DeleteItem(b: Books, id: nat, today: int): Result<Books> {
    if !Visible(b, id) then Refused(NOT_FOUND)
    else Post(b, id, b.items[id].(deleted := true, updatedOn := today), Deletion, today)
  }
}
