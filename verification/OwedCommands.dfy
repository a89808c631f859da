/** The financial commands that combine transactions with owed items and payments. */
module OwedCommands {
  import opened Outcomes
  import opened Ordering
  import opened OwedBooks
  import opened OwedPayments

  // ---------------------------------------------------------------- split an existing transaction

  datatype SplitPayment = SplitPayment(linked: nat, date: int, amount: int, extra: seq<Requested>)
  datatype SplitRow = SplitRow(person: string, amount: int, payment: Option<SplitPayment>)
  datatype Group = Group(person: string, rows: seq<SplitRow>)

  function RowsTotal(rows: seq<SplitRow>): int {
    if |rows| == 0 then 0 else RowsTotal(rows[..|rows| - 1]) + rows[|rows| - 1].amount
  }

  function AddToGroups(groups: seq<Group>, row: SplitRow): seq<Group> {
    if |groups| == 0 then [Group(row.person, [row])]
    else if groups[0].person == row.person then [Group(row.person, groups[0].rows + [row])] + groups[1..]
    else [groups[0]] + AddToGroups(groups[1..], row)
  }

  /** Rows by person, people in order of first appearance. */
  function GroupByPerson(rows: seq<SplitRow>): seq<Group> {
    if |rows| == 0 then [] else AddToGroups(GroupByPerson(rows[..|rows| - 1]), rows[|rows| - 1])
  }

  function Least(a: int, b: int): int {
    if a <= b then a else b
  }

  /** The payment a split row records: first to the person's new item, then as requested. */
  function RowPayment(person: string, p: SplitPayment, id: nat, allocation: int): PaymentDraft {
    PaymentDraft(person, p.date, p.amount, Some(p.linked), None,
                 (if allocation > 0 then [Requested(id, allocation)] else []) + p.extra)
  }

  /** One row: its payment, if there is one and the person still owes, and what the person owes then. */
  function RowStep(b: Books, person: string, id: nat, row: SplitRow, left: int, today: int): Result<(Books, int)> {
    if row.payment.None? || left <= 0 then Ok((b, left))
    else
      var p := row.payment.value;
      var allocation := Least(Least(p.amount, row.amount), left);
      if p.amount - allocation - RequestedTotal(p.extra) < 0 then Refused(BAD_REQUEST)
      else
        var b' :- RecordPayment(b, RowPayment(person, p, id, allocation), today);
        Ok((b', left - allocation))
  }

  function PaySplitRows(b: Books, person: string, id: nat, rows: seq<SplitRow>, left: int, today: int): Result<Books>
    decreases |rows|
  {
    if |rows| == 0 then Ok(b)
    else
      var (b', rest) :- RowStep(b, person, id, rows[0], left, today);
      PaySplitRows(b', person, id, rows[1..], rest, today)
  }

  function SplitGroups(b: Books, transaction: nat, groups: seq<Group>, now: int, today: int): Result<Books>
    decreases |groups|
  {
    if |groups| == 0 then Ok(b)
    else
      var g := groups[0];
      var total := RowsTotal(g.rows);
      var created :- CreateItem(b, ItemDraft(g.person, total, 0, None, Some(transaction), "manual", None), now, today);
      var paid :- PaySplitRows(created, g.person, |b.items|, g.rows, total, today);
      SplitGroups(paid, transaction, groups[1..], now, today)
  }

  predicate RowSchemaAccepts(row: SplitRow) {
    && row.person != "" && row.amount > 0
    && (row.payment.Some? ==> row.payment.value.amount > 0 && AllPositive(row.payment.value.extra))
  }

  predicate SplitSchemaAccepts(rows: seq<SplitRow>) {
    |rows| > 0 && forall i | 0 <= i < |rows| :: RowSchemaAccepts(rows[i])
  }

  function SplitTransaction(b: Books, transaction: nat, rows: seq<SplitRow>, now: int, today: int): Result<Books> {
    if !SplitSchemaAccepts(rows) then Refused(UNPROCESSABLE)
    else if transaction !in b.transactions then Refused(NOT_FOUND)
    else if !b.transactions[transaction].direction.MoneyOut? then Refused(BAD_REQUEST)
    else if LinkedOwedTotal(b.items, transaction, None) + RowsTotal(rows) > b.transactions[transaction].amount then
      Refused(BAD_REQUEST)
    else SplitGroups(b, transaction, GroupByPerson(rows), now, today)
  }

  // ---------------------------------------------------------------- create a transaction with owed records

  function DraftsTotal(drafts: seq<ItemDraft>): int {
    if |drafts| == 0 then 0 else DraftsTotal(drafts[..|drafts| - 1]) + drafts[|drafts| - 1].total
  }

  function CreateItems(b: Books, drafts: seq<ItemDraft>, linked: nat, now: int, today: int): Result<Books>
    decreases |drafts|
  {
    if |drafts| == 0 then Ok(b)
    else
      var b' :- CreateItem(b, drafts[0].(linked := Some(linked)), now, today);
      CreateItems(b', drafts[1..], linked, now, today)
  }

  /** Owed items go with money out, an owed payment with money in, and never both together. */
  predicate CombinationSchemaAccepts(t: Transaction, drafts: seq<ItemDraft>, payment: Option<PaymentDraft>) {
    && t.amount > 0
    && (forall i | 0 <= i < |drafts| :: ItemSchemaAccepts(drafts[i]))
    && (|drafts| > 0 ==> payment.None? && t.direction.MoneyOut?)
    && (payment.Some? ==> t.direction.MoneyIn? && PaymentSchemaAccepts(payment.value))
  }

  function CreateTransactionWithOwed(b: Books, id: nat, t: Transaction, drafts: seq<ItemDraft>,
                                     payment: Option<PaymentDraft>, now: int, today: int): Result<Books> {
    if !CombinationSchemaAccepts(t, drafts, payment) then Refused(UNPROCESSABLE)
    else if DraftsTotal(drafts) > t.amount then Refused(BAD_REQUEST)
    else if id in b.transactions then Refused(ABORTED)
    else
      var b' :- CreateItems(b.(transactions := b.transactions[id := t]), drafts, id, now, today);
      if payment.None? then Ok(b') else RecordPayment(b', payment.value.(linked := Some(id)), today)
  }

  // ---------------------------------------------------------------- delete a transaction with its owed items

  datatype Strategy = DeleteWithOwed | PreserveOwed(replacement: string)

  function IdOrder(): nat -> Rank {
    (i: nat) => Rank(i, 0)
  }

  function LinkedTo(items: seq<Item>, transaction: nat): nat -> bool {
    (i: nat) => i < |items| && items[i].linked == Some(transaction)
  }

  function LinkedItems(b: Books, transaction: nat): seq<nat> {
    Keep(LinkedTo(b.items, transaction), Ids(|b.items|))
  }

  predicate HasLinkedPayments(b: Books, transaction: nat) {
    exists p | p in b.payments :: b.payments[p].linked == Some(transaction)
  }

  function OfItems(ids: seq<nat>): Allocation -> bool {
    (a: Allocation) => a.item in ids
  }

  /** Everything the deletion preview's version digests. */
  datatype Version = Version(
    transaction: Transaction, items: seq<(nat, Item)>, allocations: seq<(Allocation, Option<PaymentRow>)>,
    payments: map<nat, PaymentRow>)

  function VersionOf(b: Books, transaction: nat): Version
    requires transaction in b.transactions
  {
    var ids := LinkedItems(b, transaction);
    Version(b.transactions[transaction],
            Project((i: nat) => (i, if i < |b.items| then b.items[i] else NO_ITEM), ids),
            Project((a: Allocation) => (a, if a.payment in b.payments then Some(b.payments[a.payment]) else None),
                    Keep(OfItems(ids), b.allocations)),
            map p | p in b.payments && b.payments[p].linked == Some(transaction) :: b.payments[p])
  }

  const NO_ITEM := Item("", 0, 0, 0, Open, None, None, 0, 0, true)

  predicate AnyDeleted(b: Books, ids: seq<nat>) {
    exists k | 0 <= k < |ids| :: ids[k] < |b.items| && b.items[ids[k]].deleted
  }

  predicate DeleteAllowed(b: Books, transaction: nat) {
    var ids := LinkedItems(b, transaction);
    && ids != [] && !HasLinkedPayments(b, transaction) && !AnyDeleted(b, ids)
    && (forall k | 0 <= k < |ids| :: ids[k] < |b.items| && b.items[ids[k]].paid <= 0)
    && Keep(OfItems(ids), b.allocations) == []
  }

  predicate PreserveAllowed(b: Books, transaction: nat) {
    var ids := LinkedItems(b, transaction);
    ids != [] && !HasLinkedPayments(b, transaction) && !AnyDeleted(b, ids)
  }

  predicate KnowsPerson(b: Books, person: string) {
    || (exists i | 0 <= i < |b.items| :: !b.items[i].deleted && b.items[i].person == person)
    || (exists p | p in b.payments :: b.payments[p].person == person)
  }

  /** Detach one item from its transaction, deleting it or handing it to another person. */
  function DetachOne(b: Books, id: nat, strategy: Strategy, today: int): Result<Books>
    requires id < |b.items|
  {
    var item := b.items[id].(linked := None, dedupe := None, updatedOn := today);
    match strategy
    case DeleteWithOwed => Post(b, id, item.(deleted := true), Deletion, today)
    case PreserveOwed(person) => Post(b, id, item.(person := person), Adjusted, today)
  }

  function DetachAll(b: Books, ids: seq<nat>, strategy: Strategy, today: int): Result<Books>
    requires forall k :: 0 <= k < |ids| ==> ids[k] < |b.items|
    decreases |ids|
  {
    if |ids| == 0 then Ok(b)
    else
      var b' :- DetachOne(b, ids[0], strategy, today);
      DetachAll(b', ids[1..], strategy, today)
  }

  lemma {:induction false} LinkedItemsExist(b: Books, transaction: nat)
    ensures forall k :: 0 <= k < |LinkedItems(b, transaction)| ==>
      LinkedItems(b, transaction)[k] < |b.items| && b.items[LinkedItems(b, transaction)[k]].linked == Some(transaction)
  {
    KeepAll(LinkedTo(b.items, transaction), Ids(|b.items|));
  }

  /** `expected` is what the client saw in its deletion preview. */
  function DeleteTransactionWithOwed(b: Books, transaction: nat, expectedIds: seq<nat>, expected: Version,
                                     strategy: Strategy, today: int): Result<Books> {
    if transaction !in b.transactions then Refused(NOT_FOUND)
    else
      var ids := LinkedItems(b, transaction);
      if (ids != [] && !b.transactions[transaction].direction.MoneyOut?)
         || (HasLinkedPayments(b, transaction) && !b.transactions[transaction].direction.MoneyIn?)
         || (exists k | 0 <= k < |b.allocations| :: b.allocations[k].item in ids && b.allocations[k].payment !in b.payments)
         || SortBy(IdOrder(), expectedIds) != ids || expected != VersionOf(b, transaction)
         || ids == [] then Refused(CONFLICT)
      else if strategy.DeleteWithOwed? && !DeleteAllowed(b, transaction) then Refused(CONFLICT)
      else if strategy.PreserveOwed? && !PreserveAllowed(b, transaction) then Refused(CONFLICT)
      else if strategy.PreserveOwed? && !KnowsPerson(b, strategy.replacement) then Refused(BAD_REQUEST)
      else
        LinkedItemsExist(b, transaction);
        var b' :- DetachAll(b, ids, strategy, today);
        Ok(b'.(transactions := b'.transactions - {transaction}))
  }
}
