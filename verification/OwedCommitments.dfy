/** Every command and what is owed on a transaction: the total after it, told from before, and exactly when a command
    leaves more owed on a transaction than its amount. */
module OwedCommitments {
  import opened Outcomes
  import opened OwedBooks
  import opened OwedPayments
  import opened OwedCommands
  import opened OwedInvariant
  import opened OwedHistory
  import opened OwedSettlement
  import opened OwedReversal
  import opened OwedWaterfall
  import opened OwedEffects
  import opened OwedCapacity

  // ---------------------------------------------------------------- splits

  /** The items there were stand as they did, but those reached are no longer cancelled. */
  ghost predicate RevivedTo(items: seq<Item>, items': seq<Item>, ids: set<nat>) {
    |items| <= |items'| && forall i: nat :: i < |items| ==> RevivedIf(items[i], items'[i], i in ids)
  }

  lemma {:induction false} RevivedInTurn(items: seq<Item>, items1: seq<Item>, items': seq<Item>, ids: set<nat>,
                                         ids1: set<nat>)
    requires RevivedTo(items, items1, ids) && RevivedTo(items1, items', ids1)
    ensures RevivedTo(items, items', ids + ids1)
  {
    forall i: nat | i < |items| ensures RevivedIf(items[i], items'[i], i in ids + ids1) {
      assert RevivedIf(items[i], items1[i], i in ids) && RevivedIf(items1[i], items'[i], i in ids1);
    }
  }

  /** The items that a row's payment names besides the row's own. */
  function ExtrasOf(row: SplitRow): set<nat> {
    match row.payment
    case None => {}
    case Some(p) => ItemsAmong(p.extra)
  }

  function ExtrasAmong(rows: seq<SplitRow>): set<nat> {
    if |rows| == 0 then {} else ExtrasOf(rows[0]) + ExtrasAmong(rows[1..])
  }

  function ExtrasOfGroups(groups: seq<Group>): set<nat> {
    if |groups| == 0 then {} else ExtrasAmong(groups[0].rows) + ExtrasOfGroups(groups[1..])
  }

  lemma {:induction false} ExtrasOneMore(rows: seq<SplitRow>, row: SplitRow)
    ensures ExtrasAmong(rows + [row]) == ExtrasAmong(rows) + ExtrasOf(row)
  {
    if |rows| == 0 {
      assert [row][1..] == [] && rows + [row] == [row];
    } else {
      ExtrasOneMore(rows[1..], row);
      assert (rows + [row])[1..] == rows[1..] + [row];
    }
  }

  lemma {:induction false} ExtrasAddedToGroups(groups: seq<Group>, row: SplitRow)
    ensures ExtrasOfGroups(AddToGroups(groups, row)) == ExtrasOfGroups(groups) + ExtrasOf(row)
    decreases |groups|
  {
    if |groups| == 0 {
      ExtrasOneMore([], row);
      assert [] + [row] == [row];
    } else if groups[0].person == row.person {
      ExtrasOneMore(groups[0].rows, row);
    } else {
      ExtrasAddedToGroups(groups[1..], row);
      assert AddToGroups(groups, row)[1..] == AddToGroups(groups[1..], row);
    }
  }

  /** Grouping loses no extra allocation. */
  lemma {:induction false} GroupsNameTheExtras(rows: seq<SplitRow>)
    ensures ExtrasOfGroups(GroupByPerson(rows)) == ExtrasAmong(rows)
  {
    if |rows| > 0 {
      GroupsNameTheExtras(rows[..|rows| - 1]);
      ExtrasAddedToGroups(GroupByPerson(rows[..|rows| - 1]), rows[|rows| - 1]);
      ExtrasOneMore(rows[..|rows| - 1], rows[|rows| - 1]);
      assert rows[..|rows| - 1] + [rows[|rows| - 1]] == rows;
    }
  }

  lemma {:induction false} ItemsFromFront(r: Requested, s: seq<Requested>)
    ensures ItemsAmong([r] + s) == {r.item} + ItemsAmong(s)
  {
    var all := [r] + s;
    assert all[0] == r && forall k :: 0 <= k < |s| ==> all[k + 1] == s[k];
    assert r.item in ItemsAmong(all);
    forall i: nat | i in ItemsAmong(s) ensures i in ItemsAmong(all) {
      var k :| 0 <= k < |s| && s[k].item == i;
      assert all[k + 1].item == i;
    }
    forall i: nat | i in ItemsAmong(all) ensures i in {r.item} + ItemsAmong(s) {
      var k :| 0 <= k < |all| && all[k].item == i;
      if k > 0 { assert s[k - 1].item == i; }
    }
  }

  lemma {:induction false} RequestNamesOwnAndExtras(person: string, id: nat, row: SplitRow)
    requires row.payment.Some? && RowSchemaAccepts(row)
    ensures var p := RowPayment(person, row.payment.value, id, OwnPart(row));
      |p.requested| > 0 && ItemsAmong(p.requested) == {id} + ExtrasOf(row)
  {
    var p := RowPayment(person, row.payment.value, id, OwnPart(row));
    assert p.requested == [Requested(id, OwnPart(row))] + row.payment.value.extra;
    ItemsFromFront(Requested(id, OwnPart(row)), row.payment.value.extra);
  }

  lemma {:induction false} OneRowRevives(b: Books, person: string, id: nat, row: SplitRow, today: int)
    requires Inv(b) && row.payment.Some? && RowSchemaAccepts(row)
    requires RecordPayment(b, RowPayment(person, row.payment.value, id, OwnPart(row)), today).Ok?
    ensures var b' := RecordPayment(b, RowPayment(person, row.payment.value, id, OwnPart(row)), today).value;
      |b'.items| == |b.items| && RevivedTo(b.items, b'.items, {id} + ExtrasOf(row))
  {
    var p := RowPayment(person, row.payment.value, id, OwnPart(row));
    RequestNamesOwnAndExtras(person, id, row);
    PaymentsKeepTerms(b, p, today);
    forall i: nat | i < |b.items|
      ensures RevivedIf(b.items[i], RecordPayment(b, p, today).value.items[i], i in {id} + ExtrasOf(row))
    {
      SettlingRevives(b, p, today, i);
    }
  }

  lemma {:induction false} NoneRevived(items: seq<Item>, ids: set<nat>)
    requires forall i: nat :: i < |items| && i in ids ==> !items[i].status.Cancelled?
    ensures RevivedTo(items, items, ids)
  {
  }

  lemma {:induction false} RowsRevive(b: Books, person: string, id: nat, rows: seq<SplitRow>, left: int, today: int)
    requires Inv(b) && id < |b.items| && b.items[id].person == person && !b.items[id].status.Cancelled?
    requires AllRowsAccepted(rows) && left >= RowsTotal(rows)
    requires PaySplitRows(b, person, id, rows, left, today).Ok?
    ensures var b' := PaySplitRows(b, person, id, rows, left, today).value;
      |b'.items| == |b.items| && RevivedTo(b.items, b'.items, {id} + ExtrasAmong(rows))
    decreases |rows|
  {
    if |rows| == 0 {
      NoneRevived(b.items, {id});
      assert {id} + ExtrasAmong(rows) == {id};
    } else {
      RowsFromFront(rows);
      var row, b' := rows[0], PaySplitRows(b, person, id, rows, left, today).value;
      if row.payment.None? {
        RowsRevive(b, person, id, rows[1..], left, today);
        assert {id} + ExtrasAmong(rows) == {id} + ExtrasAmong(rows[1..]);
      } else {
        assert Least(OwnPart(row), left) == OwnPart(row);
        var b1 := RecordPayment(b, RowPayment(person, row.payment.value, id, OwnPart(row)), today).value;
        OneRowRevives(b, person, id, row, today);
        OnePaymentGives(b, person, id, row, today);
        RowsRevive(b1, person, id, rows[1..], left - OwnPart(row), today);
        RevivedInTurn(b.items, b1.items, b'.items, {id} + ExtrasOf(row), {id} + ExtrasAmong(rows[1..]));
        assert {id} + ExtrasAmong(rows) == ({id} + ExtrasOf(row)) + ({id} + ExtrasAmong(rows[1..]));
      }
    }
  }

  /** The item counts towards its transaction, with this total. */
  ghost predicate CountsOn(item: Item, transaction: nat, total: int) {
    item.linked == Some(transaction) && !item.deleted && !item.status.Cancelled? && item.total == total
  }

  lemma {:induction false} CreatedItemCounts(b: Books, d: ItemDraft, now: int, today: int)
    requires CreateItem(b, d, now, today).Ok?
    ensures var items := CreateItem(b, d, now, today).value.items;
      && |items| == |b.items| + 1 && items[..|b.items|] == b.items
      && items[|b.items|].linked == d.linked && items[|b.items|].person == d.person && items[|b.items|].total == d.total
      && !items[|b.items|].deleted && !items[|b.items|].status.Cancelled?
  {
  }

  lemma {:induction false} OneGroupRevives(b: Books, transaction: nat, g: Group, now: int, today: int)
    requires Inv(b) && AllRowsAccepted(g.rows) && AfterGroup(b, transaction, g, now, today).Ok?
    ensures var items := AfterGroup(b, transaction, g, now, today).value.items;
      && |items| == |b.items| + 1 && RevivedTo(b.items, items, ExtrasAmong(g.rows))
      && CountsOn(items[|b.items|], transaction, RowsTotal(g.rows))
  {
    var created := CreateItem(b, GroupDraft(g, transaction), now, today).value;
    var items := AfterGroup(b, transaction, g, now, today).value.items;
    ItemIsCreated(b, g, transaction, now, today);
    CreatedItemCounts(b, GroupDraft(g, transaction), now, today);
    RowsRevive(created, g.person, |b.items|, g.rows, RowsTotal(g.rows), today);
    assert RevivedIf(created.items[|b.items|], items[|b.items|], true);
    forall i: nat | i < |b.items| ensures RevivedIf(b.items[i], items[i], i in ExtrasAmong(g.rows)) {
      assert created.items[..|b.items|][i] == created.items[i];
      assert RevivedIf(created.items[i], items[i], i in {|b.items|} + ExtrasAmong(g.rows));
    }
  }

  /** The items from position `n` on, one for each group, count for the sum of its rows. */
  ghost predicate GroupsCount(items: seq<Item>, n: nat, transaction: nat, groups: seq<Group>) {
    && |items| == n + |groups|
    && forall k :: 0 <= k < |groups| ==> CountsOn(items[n + k], transaction, RowsTotal(groups[k].rows))
  }

  lemma {:induction false} GroupsRevive(b: Books, transaction: nat, groups: seq<Group>, now: int, today: int)
    requires Inv(b) && AllGroupsAccepted(groups) && SplitGroups(b, transaction, groups, now, today).Ok?
    ensures var items := SplitGroups(b, transaction, groups, now, today).value.items;
      RevivedTo(b.items, items, ExtrasOfGroups(groups)) && GroupsCount(items, |b.items|, transaction, groups)
    decreases |groups|
  {
    if |groups| > 0 {
      var b1 := AfterGroup(b, transaction, groups[0], now, today).value;
      var items := SplitGroups(b, transaction, groups, now, today).value.items;
      OneGroupRevives(b, transaction, groups[0], now, today);
      OneGroupSplit(b, transaction, groups[0], now, today);
      GroupsRevive(b1, transaction, groups[1..], now, today);
      RevivedInTurn(b.items, b1.items, items, ExtrasAmong(groups[0].rows), ExtrasOfGroups(groups[1..]));
      GroupsCountInTurn(b1.items, items, |b.items|, transaction, groups);
    }
  }

  lemma {:induction false} GroupsCountInTurn(items1: seq<Item>, items: seq<Item>, n: nat, transaction: nat,
                                             groups: seq<Group>)
    requires |groups| > 0 && |items1| == n + 1 && CountsOn(items1[n], transaction, RowsTotal(groups[0].rows))
    requires RevivedTo(items1, items, ExtrasOfGroups(groups[1..])) && GroupsCount(items, n + 1, transaction, groups[1..])
    ensures GroupsCount(items, n, transaction, groups)
  {
    assert RevivedIf(items1[n], items[n], n in ExtrasOfGroups(groups[1..]));
    forall k | 0 <= k < |groups| ensures CountsOn(items[n + k], transaction, RowsTotal(groups[k].rows)) {
      if k > 0 { assert CountsOn(items[n + 1 + (k - 1)], transaction, RowsTotal(groups[1..][k - 1].rows)); }
    }
  }

  lemma {:induction false} GroupsTotalFromBack(groups: seq<Group>)
    requires |groups| > 0
    ensures GroupsTotal(groups) == GroupsTotal(groups[..|groups| - 1]) + RowsTotal(groups[|groups| - 1].rows)
  {
    if |groups| > 1 {
      GroupsTotalFromBack(groups[1..]);
      assert groups[1..][..|groups| - 2] == groups[..|groups| - 1][1..];
    } else {
      assert groups[1..] == [] && groups[..0] == [];
    }
  }

  lemma {:induction false} GroupsAddTheirRows(items: seq<Item>, n: nat, s: nat, groups: seq<Group>, t: nat)
    requires GroupsCount(items, n, s, groups)
    ensures LinkedOwedTotal(items, t, None)
         == LinkedOwedTotal(items[..n], t, None) + if t == s then GroupsTotal(groups) else 0
    decreases |groups|
  {
    if |groups| == 0 {
      assert items[..n] == items;
    } else {
      var m := |groups| - 1;
      GroupsTotalFromBack(groups);
      assert CountsOn(items[n + m], s, RowsTotal(groups[m].rows));
      GroupsAddTheirRows(items[..n + m], n, s, groups[..m], t);
      assert items[..n + m][..n] == items[..n];
    }
  }

  /** A split raises what is owed on its transaction by its rows, and what is owed on any transaction by the totals of the
      cancelled items of it that the extra allocations name. */
  lemma {:induction false} SplitsRaiseLinkedTotals(b: Books, s: nat, rows: seq<SplitRow>, now: int, today: int, t: nat)
    requires Inv(b) && SplitTransaction(b, s, rows, now, today).Ok?
    ensures LinkedOwedTotal(SplitTransaction(b, s, rows, now, today).value.items, t, None)
         == LinkedOwedTotal(b.items, t, None) + (if t == s then RowsTotal(rows) else 0)
            + CancelledTotal(b.items, ExtrasAmong(rows), t)
  {
    var groups, items := GroupByPerson(rows), SplitTransaction(b, s, rows, now, today).value.items;
    GroupsHoldEachPersonsRows(rows, "");
    GroupsAreAccepted(rows);
    GroupsNameTheExtras(rows);
    GroupsRevive(b, s, groups, now, today);
    GroupsAddTheirRows(items, |b.items|, s, groups, t);
    forall i: nat | i < |b.items| ensures RevivedIf(b.items[i], items[..|b.items|][i], i in ExtrasAmong(rows)) {
      assert RevivedIf(b.items[i], items[i], i in ExtrasAmong(rows));
    }
    RevivalRaisesTotal(b.items, items[..|b.items|], ExtrasAmong(rows), t);
  }

  // ---------------------------------------------------------------- single items

  lemma {:induction false} CreatingRaisesTotal(b: Books, d: ItemDraft, now: int, today: int, t: nat)
    requires CreateItem(b, d, now, today).Ok?
    ensures LinkedOwedTotal(CreateItem(b, d, now, today).value.items, t, None)
         == LinkedOwedTotal(b.items, t, None) + if d.linked == Some(t) then d.total else 0
  {
    CreatedItemCounts(b, d, now, today);
  }

  /** An item as a patch leaves it, as far as its transaction is concerned. */
  function Patched(item: Item, p: ItemPatch): Item {
    var total, paid := p.total.GetOr(item.total), p.paid.GetOr(item.paid);
    item.(total := total, linked := p.linked.Over(item.linked),
          status := p.status.GetOr(CalculateStatus(paid, total - paid)))
  }

  lemma {:induction false} ReplacedTotal(items: seq<Item>, id: nat, item: Item, t: nat)
    requires id < |items|
    ensures LinkedOwedTotal(items[id := item], t, None) == LinkedOwedTotal(items, t, Some(id)) + LiveTotal(item, t)
  {
    OwedWithout(items[id := item], t, id);
    ExcludedIsIgnored(items, t, id, item);
  }

  lemma {:induction false} UpdatingReplacesTotal(b: Books, id: nat, p: ItemPatch, today: int, t: nat)
    requires UpdateItem(b, id, p, today).Ok?
    ensures id < |b.items|
    ensures LinkedOwedTotal(UpdateItem(b, id, p, today).value.items, t, None)
         == LinkedOwedTotal(b.items, t, Some(id)) + LiveTotal(Patched(b.items[id], p), t)
    ensures LiveTotal(UpdateItem(b, id, p, today).value.items[id], t) == LiveTotal(Patched(b.items[id], p), t)
  {
    ReplacedTotal(b.items, id, UpdateItem(b, id, p, today).value.items[id], t);
  }

  lemma {:induction false} DeletingDropsTotal(b: Books, id: nat, today: int, t: nat)
    requires DeleteItem(b, id, today).Ok?
    ensures LinkedOwedTotal(DeleteItem(b, id, today).value.items, t, None) == LinkedOwedTotal(b.items, t, Some(id))
    ensures DeleteItem(b, id, today).value.transactions == b.transactions
  {
    ReplacedTotal(b.items, id, DeleteItem(b, id, today).value.items[id], t);
  }

  // ---------------------------------------------------------------- transactions with owed records

  lemma {:induction false} DraftsFromFront(drafts: seq<ItemDraft>)
    requires |drafts| > 0
    ensures DraftsTotal(drafts) == drafts[0].total + DraftsTotal(drafts[1..])
  {
    if |drafts| > 1 {
      DraftsFromFront(drafts[..|drafts| - 1]);
      assert drafts[1..][..|drafts| - 2] == drafts[..|drafts| - 1][1..];
    } else {
      assert drafts[1..] == [] && drafts[..0] == [];
    }
  }

  lemma {:induction false} DraftsRaiseTotal(b: Books, drafts: seq<ItemDraft>, linked: nat, now: int, today: int, t: nat)
    requires CreateItems(b, drafts, linked, now, today).Ok?
    ensures var b' := CreateItems(b, drafts, linked, now, today).value;
      && LinkedOwedTotal(b'.items, t, None)
         == LinkedOwedTotal(b.items, t, None) + (if t == linked then DraftsTotal(drafts) else 0)
      && b'.transactions == b.transactions
    decreases |drafts|
  {
    if |drafts| > 0 {
      var d := drafts[0].(linked := Some(linked));
      DraftsFromFront(drafts);
      CreatingRaisesTotal(b, d, now, today, t);
      DraftsRaiseTotal(CreateItem(b, d, now, today).value, drafts[1..], linked, now, today, t);
    }
  }

  function ReceivedItems(received: Option<PaymentDraft>): set<nat> {
    match received
    case None => {}
    case Some(p) => ItemsAmong(p.requested)
  }

  lemma {:induction false} NoneCancelled(items: seq<Item>, t: nat)
    ensures CancelledTotal(items, {}, t) == 0
  {
    if |items| > 0 {
      NoneCancelled(items[..|items| - 1], t);
    }
  }

  /** A transaction created with its owed items raises what is owed on it by them; one created with a received payment
      revives what the payment names. */
  lemma {:induction false} CombinationsRaiseLinkedTotals(b: Books, id: nat, row: Transaction, drafts: seq<ItemDraft>,
                                                         received: Option<PaymentDraft>, now: int, today: int, t: nat)
    requires Inv(b) && CreateTransactionWithOwed(b, id, row, drafts, received, now, today).Ok?
    ensures LinkedOwedTotal(CreateTransactionWithOwed(b, id, row, drafts, received, now, today).value.items, t, None)
         == LinkedOwedTotal(b.items, t, None) + (if t == id then DraftsTotal(drafts) else 0)
            + CancelledTotal(b.items, ReceivedItems(received), t)
    ensures CreateTransactionWithOwed(b, id, row, drafts, received, now, today).value.transactions
         == b.transactions[id := row]
  {
    var saved := b.(transactions := b.transactions[id := row]);
    if received.None? {
      DraftsRaiseTotal(saved, drafts, id, now, today, t);
      NoneCancelled(b.items, t);
    } else {
      var p := received.value.(linked := Some(id));
      StepKeeps(b, Op(SaveTransaction(id, row), now, today));
      PaymentsRaiseLinkedTotals(saved, p, today, t);
      PaymentSettlesGrants(saved, p, today);
    }
  }

  lemma {:induction false} DetachingDropsTotal(items: seq<Item>, items': seq<Item>, s: nat, strategy: Strategy, today: int,
                                               t: nat)
    requires |items'| == |items|
    requires forall i :: 0 <= i < |items| ==>
      items'[i] == if items[i].linked == Some(s) then DetachedItem(items[i], strategy, today) else items[i]
    ensures LinkedOwedTotal(items', t, None) == if t == s then 0 else LinkedOwedTotal(items, t, None)
  {
    if |items| > 0 {
      var n := |items| - 1;
      DetachingDropsTotal(items[..n], items'[..n], s, strategy, today, t);
    }
  }

  lemma {:induction false} DetachingLeavesNothing(b: Books, s: nat, ids: seq<nat>, v: Version, strategy: Strategy, today: int,
                                                  t: nat)
    requires Inv(b) && DeleteTransactionWithOwed(b, s, ids, v, strategy, today).Ok?
    ensures var b' := DeleteTransactionWithOwed(b, s, ids, v, strategy, today).value;
      && LinkedOwedTotal(b'.items, t, None) == (if t == s then 0 else LinkedOwedTotal(b.items, t, None))
      && b'.transactions == b.transactions - {s}
  {
    DeletionDetachesExactlyLinkedItems(b, s, ids, v, strategy, today);
    DetachingDropsTotal(b.items, DeleteTransactionWithOwed(b, s, ids, v, strategy, today).value.items, s, strategy, today, t);
  }

  // ---------------------------------------------------------------- every command

  /** What will be owed on a transaction after a command, told from before it. */
  function OwedAfter(b: Books, op: Op, t: nat): int {
    var owed := LinkedOwedTotal(b.items, t, None);
    match op.command
    case Create(d) => owed + if d.linked == Some(t) then d.total else 0
    case Update(id, p) =>
      if id < |b.items| then LinkedOwedTotal(b.items, t, Some(id)) + LiveTotal(Patched(b.items[id], p), t) else owed
    case Delete(id) => LinkedOwedTotal(b.items, t, Some(id))
    case Pay(p) => owed + CancelledTotal(b.items, ItemsAmong(p.requested), t)
    case Reverse(payment) => owed + CancelledTotal(b.items, ItemsPaidBy(b, payment), t)
    case Split(s, rows) =>
      owed + (if t == s then RowsTotal(rows) else 0) + CancelledTotal(b.items, ExtrasAmong(rows), t)
    case CreateWithOwed(id, _, drafts, received) =>
      owed + (if t == id then DraftsTotal(drafts) else 0) + CancelledTotal(b.items, ReceivedItems(received), t)
    case DeleteWithOwed(s, _, _, _) => if t == s then 0 else owed
    case SaveTransaction(_, _) => owed
    case DeleteTransaction(_) => owed
  }

  /** Every command leaves owed on every transaction what could be told before it. */
  lemma {:induction false} EveryCommandLeavesOwed(b: Books, op: Op, t: nat)
    requires Inv(b) && Step(b, op).Ok?
    ensures LinkedOwedTotal(After(b, op).items, t, None) == OwedAfter(b, op, t)
  {
    match op.command
    case Create(d) => CreatingRaisesTotal(b, d, op.now, op.today, t);
    case Update(id, p) => UpdatingReplacesTotal(b, id, p, op.today, t);
    case Delete(id) => DeletingDropsTotal(b, id, op.today, t);
    case Pay(p) => PaymentsRaiseLinkedTotals(b, p, op.today, t);
    case Reverse(payment) => ReversalsRaiseLinkedTotals(b, payment, op.today, t);
    case Split(s, rows) => SplitsRaiseLinkedTotals(b, s, rows, op.now, op.today, t);
    case CreateWithOwed(id, row, drafts, received) =>
      CombinationsRaiseLinkedTotals(b, id, row, drafts, received, op.now, op.today, t);
    case DeleteWithOwed(s, ids, v, strategy) => DetachingLeavesNothing(b, s, ids, v, strategy, op.today, t);
    case SaveTransaction(_, _) =>
    case DeleteTransaction(_) =>
  }

  /** What is owed on a transaction is within it. */
  ghost predicate Within(b: Books, t: nat) {
    t in b.transactions ==> LinkedOwedTotal(b.items, t, None) <= b.transactions[t].amount
  }

  /** What a caller can see before a command to know that the transaction will do: the items that the command revives
      still fit, and a changed amount covers what is owed. No other command needs looking at. */
  ghost predicate RoomFor(b: Books, op: Op, t: nat) {
    match op.command
    case Pay(_) => t in b.transactions ==> OwedAfter(b, op, t) <= b.transactions[t].amount
    case Reverse(_) => t in b.transactions ==> OwedAfter(b, op, t) <= b.transactions[t].amount
    case Split(_, _) => t in b.transactions ==> OwedAfter(b, op, t) <= b.transactions[t].amount
    case CreateWithOwed(_, _, _, _) => t in b.transactions ==> OwedAfter(b, op, t) <= b.transactions[t].amount
    case SaveTransaction(id, row) => t == id ==> LinkedOwedTotal(b.items, t, None) <= row.amount
    case _ => true
  }

  lemma {:induction false} UpdatingStaysWithin(b: Books, op: Op, t: nat)
    requires Inv(b) && op.command.Update? && Step(b, op).Ok? && Within(b, t)
    ensures Within(After(b, op), t)
  {
    var id, p := op.command.id, op.command.patch;
    UpdatingReplacesTotal(b, id, p, op.today, t);
    UpdatesAreLoggedWhenTheyMoveMoney(b, id, p, op.today);
    if LiveTotal(Patched(b.items[id], p), t) > 0 {
      UpdatingStaysWithinCapacity(b, id, p, op.today, t);
    } else {
      OwedWithout(b.items, t, id);
      assert ItemBalances(b.items[id]);
    }
  }

  lemma {:induction false} CombiningStaysWithin(b: Books, op: Op, t: nat)
    requires Inv(b) && op.command.CreateWithOwed? && Step(b, op).Ok?
    ensures Within(After(b, op), t) <==> RoomFor(b, op, t)
  {
    var id := op.command.transaction;
    EveryCommandLeavesOwed(b, op, t);
    CombinationsRaiseLinkedTotals(b, id, op.command.row, op.command.drafts, op.command.received, op.now, op.today, t);
    if t == id {
      NothingLinked(b.items, ReceivedItems(op.command.received), t);
    }
  }

  lemma {:induction false} NothingLinked(items: seq<Item>, ids: set<nat>, t: nat)
    requires forall i :: 0 <= i < |items| ==> items[i].linked != Some(t)
    ensures LinkedOwedTotal(items, t, None) == 0 && CancelledTotal(items, ids, t) == 0
  {
    if |items| > 0 {
      NothingLinked(items[..|items| - 1], ids, t);
    }
  }

  lemma {:induction false} PaymentKeepsTransactions(b: Books, p: PaymentDraft, today: int)
    requires Inv(b) && RecordPayment(b, p, today).Ok?
    ensures Inv(RecordPayment(b, p, today).value)
    ensures RecordPayment(b, p, today).value.transactions == b.transactions
  {
    StepKeeps(b, Op(Pay(p), 0, today));
    PaymentSettlesGrants(b, p, today);
  }

  lemma {:induction false} SameTransactions(b: Books, op: Op)
    requires Inv(b) && Step(b, op).Ok? && (op.command.Pay? || op.command.Reverse? || op.command.Split?)
    ensures After(b, op).transactions == b.transactions
  {
    match op.command
    case Pay(p) => PaymentKeepsTransactions(b, p, op.today);
    case Reverse(payment) =>
      SteadyBooks(b);
      DeletionGivesBack(b, payment, op.today);
    case Split(s, rows) => SplitKeepsTransactions(b, s, GroupByPerson(rows), op.now, op.today);
  }

  lemma {:induction false} RowKeepsTransactions(b: Books, person: string, id: nat, row: SplitRow, left: int, today: int)
    requires Inv(b) && RowStep(b, person, id, row, left, today).Ok?
    ensures Inv(RowStep(b, person, id, row, left, today).value.0)
    ensures RowStep(b, person, id, row, left, today).value.0.transactions == b.transactions
  {
    if row.payment.Some? && left > 0 {
      var p := row.payment.value;
      PaymentKeepsTransactions(b, RowPayment(person, p, id, Least(Least(p.amount, row.amount), left)), today);
    }
  }

  lemma {:induction false} RowsKeepTransactions(b: Books, person: string, id: nat, rows: seq<SplitRow>, left: int, today: int)
    requires Inv(b) && PaySplitRows(b, person, id, rows, left, today).Ok?
    ensures Inv(PaySplitRows(b, person, id, rows, left, today).value)
    ensures PaySplitRows(b, person, id, rows, left, today).value.transactions == b.transactions
    decreases |rows|
  {
    if |rows| > 0 {
      RowKeepsTransactions(b, person, id, rows[0], left, today);
      var (b1, rest) := RowStep(b, person, id, rows[0], left, today).value;
      RowsKeepTransactions(b1, person, id, rows[1..], rest, today);
    }
  }

  lemma {:induction false} SplitKeepsTransactions(b: Books, s: nat, groups: seq<Group>, now: int, today: int)
    requires Inv(b) && SplitGroups(b, s, groups, now, today).Ok?
    ensures SplitGroups(b, s, groups, now, today).value.transactions == b.transactions
    decreases |groups|
  {
    if |groups| > 0 {
      var g, total := groups[0], RowsTotal(groups[0].rows);
      var created := CreateItem(b, GroupDraft(g, s), now, today).value;
      StepKeeps(b, Op(Create(GroupDraft(g, s)), now, today));
      RowsKeepTransactions(created, g.person, |b.items|, g.rows, total, today);
      SplitKeepsTransactions(AfterGroup(b, s, g, now, today).value, s, groups[1..], now, today);
    }
  }

  /** A command leaves a transaction that was within its amount within it exactly when there was room. */
  lemma {:induction false} WithinExactlyWhenRoom(b: Books, op: Op, t: nat)
    requires Inv(b) && Step(b, op).Ok? && Within(b, t)
    ensures Within(After(b, op), t) <==> RoomFor(b, op, t)
  {
    EveryCommandLeavesOwed(b, op, t);
    match op.command
    case Create(d) => if d.linked.Some? { CreatingStaysWithinCapacity(b, d, op.now, op.today); }
    case Update(_, _) => UpdatingStaysWithin(b, op, t);
    case Delete(id) => DeletingStaysWithin(b, id, op.today, t);
    case Pay(_) => SameTransactions(b, op);
    case Reverse(_) => SameTransactions(b, op);
    case Split(_, _) => SameTransactions(b, op);
    case CreateWithOwed(_, _, _, _) => CombiningStaysWithin(b, op, t);
    case DeleteWithOwed(s, ids, v, strategy) => DetachingLeavesNothing(b, s, ids, v, strategy, op.today, t);
    case _ =>
  }

  lemma {:induction false} DeletingStaysWithin(b: Books, id: nat, today: int, t: nat)
    requires Inv(b) && DeleteItem(b, id, today).Ok? && Within(b, t)
    ensures Within(DeleteItem(b, id, today).value, t)
  {
    DeletingDropsTotal(b, id, today, t);
    OwedWithout(b.items, t, id);
    assert ItemBalances(b.items[id]);
  }

  ghost predicate AllWithin(b: Books) {
    forall t: nat :: Within(b, t)
  }

  /** A refused command needs no room. */
  ghost predicate RoomForAll(b: Books, op: Op) {
    Step(b, op).Ok? ==> forall t: nat :: RoomFor(b, op, t)
  }

  lemma {:induction false} AllWithinExactlyWhenRoom(b: Books, op: Op)
    requires Inv(b) && AllWithin(b)
    ensures AllWithin(After(b, op)) <==> RoomForAll(b, op)
  {
    if Step(b, op).Ok? {
      forall t: nat ensures Within(After(b, op), t) <==> RoomFor(b, op, t) {
        WithinExactlyWhenRoom(b, op, t);
      }
    }
  }

  lemma {:induction false} WithinUpTo(ops: seq<Op>, k: nat)
    requires k <= |ops| && forall j :: 0 <= j < |ops| ==> RoomForAll(Run(EMPTY_BOOKS, ops[..j]), ops[j])
    ensures AllWithin(Run(EMPTY_BOOKS, ops[..k]))
  {
    if k > 0 {
      WithinUpTo(ops, k - 1);
      RunUpTo(ops, k - 1);
      EveryReachableStateIsSound(ops[..k - 1]);
      AllWithinExactlyWhenRoom(Run(EMPTY_BOOKS, ops[..k - 1]), ops[k - 1]);
    }
  }

  /** Over a run from empty tables every transaction is within its amount in every state exactly when there is room for
      each command as it comes. */
  lemma {:induction false} EveryRunStaysWithinExactlyWhenRoom(ops: seq<Op>)
    ensures (forall k :: 0 <= k <= |ops| ==> AllWithin(Run(EMPTY_BOOKS, ops[..k]))) <==>
            (forall k :: 0 <= k < |ops| ==> RoomForAll(Run(EMPTY_BOOKS, ops[..k]), ops[k]))
  {
    if forall k :: 0 <= k < |ops| ==> RoomForAll(Run(EMPTY_BOOKS, ops[..k]), ops[k]) {
      forall k | 0 <= k <= |ops| ensures AllWithin(Run(EMPTY_BOOKS, ops[..k])) {
        WithinUpTo(ops, k);
      }
    }
    if forall k :: 0 <= k <= |ops| ==> AllWithin(Run(EMPTY_BOOKS, ops[..k])) {
      forall k | 0 <= k < |ops| ensures RoomForAll(Run(EMPTY_BOOKS, ops[..k]), ops[k]) {
        assert AllWithin(Run(EMPTY_BOOKS, ops[..k])) && AllWithin(Run(EMPTY_BOOKS, ops[..k + 1]));
        RunUpTo(ops, k);
        EveryReachableStateIsSound(ops[..k]);
        AllWithinExactlyWhenRoom(Run(EMPTY_BOOKS, ops[..k]), ops[k]);
      }
    }
  }

  // ---------------------------------------------------------------- reachable overcommitments

  /** A cancelled item of 60 is linked to a transaction of 100 without a check. */
  const REVIVABLE := [
    Op(SaveTransaction(0, Transaction(MoneyOut, 100, 1)), 0, 1),
    Op(SaveTransaction(1, Transaction(MoneyIn, 110, 1)), 0, 1),
    Op(Create(ItemDraft("Ana", 60, 0, None, None, "manual", None)), 0, 1),
    Op(Update(0, ItemPatch(None, None, None, Some(Cancelled), Set(Some(0)), Unset)), 0, 1)]

  const FREE := Item("Ana", 60, 0, 60, Open, None, None, 0, 1, false)
  const DROPPED := FREE.(status := Cancelled, linked := Some(0))

  /** One row of 100, paid with 110 of which 10 go to the cancelled item. */
  const REVIVING_ROW := SplitRow("Ana", 100, Some(SplitPayment(1, 1, 110, [Requested(0, 10)])))

  function WithTwo(items: seq<Item>, events: seq<OwedEvent>): Books {
    EMPTY_BOOKS.(transactions := map[0 := Transaction(MoneyOut, 100, 1), 1 := Transaction(MoneyIn, 110, 1)],
                 items := items, events := events)
  }

  lemma {:induction false} ReachFree()
    ensures Run(EMPTY_BOOKS, REVIVABLE[..3]) == WithTwo([FREE], [EventFor(0, FREE, Created, 1)])
  {
    RunUpTo(REVIVABLE, 0);
    RunUpTo(REVIVABLE, 1);
    RunUpTo(REVIVABLE, 2);
    assert Run(EMPTY_BOOKS, REVIVABLE[..2]) == WithTwo([], []);
  }

  lemma {:induction false} ReachDropped()
    ensures Run(EMPTY_BOOKS, REVIVABLE)
         == WithTwo([DROPPED], [EventFor(0, FREE, Created, 1), EventFor(0, DROPPED, Cancellation, 1)])
  {
    ReachFree();
    RunUpTo(REVIVABLE, 3);
    assert REVIVABLE[..4] == REVIVABLE;
  }

  lemma {:induction false} TotalOfOneRow(row: SplitRow)
    ensures RowsTotal([row]) == row.amount
  {
    var none: seq<SplitRow> := [];
    assert RowsTotal(none) == 0 && [row][..|[row]| - 1] == none;
  }

  /** A split of one row goes through when its item and its payment do. */
  lemma {:induction false} OneRowSplits(b: Books, s: nat, row: SplitRow, now: int, today: int)
    requires RowSchemaAccepts(row) && s in b.transactions && b.transactions[s].direction.MoneyOut?
    requires LinkedOwedTotal(b.items, s, None) + row.amount <= b.transactions[s].amount
    requires AfterGroup(b, s, Group(row.person, [row]), now, today).Ok?
    ensures SplitTransaction(b, s, [row], now, today).Ok?
  {
    var g := Group(row.person, [row]);
    TotalOfOneRow(row);
    assert [row][..0] == [] && GroupByPerson([row]) == [g];
    assert [g][1..] == [];
    assert SplitGroups(b, s, [g], now, today) == SplitGroups(AfterGroup(b, s, g, now, today).value, s, [], now, today);
  }

  lemma {:induction false} OneRowIsPaid(b: Books, id: nat, row: SplitRow, today: int)
    requires RowSchemaAccepts(row) && row.payment.Some?
    requires OwnPart(row) + RequestedTotal(row.payment.value.extra) <= row.payment.value.amount
    requires RecordPayment(b, RowPayment(row.person, row.payment.value, id, OwnPart(row)), today).Ok?
    ensures PaySplitRows(b, row.person, id, [row], row.amount, today).Ok?
  {
    assert [row][1..] == [];
    assert RowStep(b, row.person, id, row, row.amount, today).Ok?;
  }

  lemma {:induction false} OneGroupIsPaid(b: Books, s: nat, row: SplitRow, now: int, today: int)
    requires RowSchemaAccepts(row)
    requires CreateItem(b, GroupDraft(Group(row.person, [row]), s), now, today).Ok?
    requires PaySplitRows(CreateItem(b, GroupDraft(Group(row.person, [row]), s), now, today).value, row.person, |b.items|,
                          [row], row.amount, today).Ok?
    ensures AfterGroup(b, s, Group(row.person, [row]), now, today).Ok?
  {
    TotalOfOneRow(row);
  }

  lemma {:induction false} TotalsOfTwo(s: seq<Requested>, i: nat)
    requires |s| == 2
    ensures RequestedTotal(s) == s[0].amount + s[1].amount
    ensures RequestedFor(i, s) == (if s[0].item == i then s[0].amount else 0) + if s[1].item == i then s[1].amount else 0
  {
    assert s[..1][..0] == [] && s[..1][0] == s[0];
    assert RequestedTotal(s[..1]) == s[0].amount && RequestedFor(i, s[..1]) == if s[0].item == i then s[0].amount else 0;
  }

  /** A first payment to two different items of its person that owe as much. */
  lemma {:induction false} TwoArePaid(b: Books, p: PaymentDraft, today: int)
    requires Inv(b) && PaymentSchemaAccepts(p) && p.linked.Some? && p.linked.value in b.transactions
    requires b.payments == map[] && b.nextPayment == 0
    requires b.transactions[p.linked.value].direction.MoneyIn? && p.amount <= b.transactions[p.linked.value].amount
    requires |p.requested| == 2 && p.requested[0].item != p.requested[1].item
    requires p.requested[0].amount + p.requested[1].amount <= p.amount
    requires forall k :: 0 <= k < 2 ==> var r := p.requested[k];
      Visible(b, r.item) && b.items[r.item].person == p.person && r.amount <= b.items[r.item].remaining
    ensures RecordPayment(b, p, today).Ok?
  {
    TotalsOfTwo(p.requested, p.requested[0].item);
    TotalsOfTwo(p.requested, p.requested[1].item);
    assert PaymentsLinkedTo(b.payments, p.linked.value, 0) == 0;
    assert RequestFits(b, p.person, p.amount, p.requested);
    ExplicitPaymentsApplyInFull(b, p, today);
  }

  /** Ana's cancelled item of 60 hangs on a transaction of 100, and 110 have come in from her. */
  ghost predicate HoldsDropped(b: Books) {
    && |b.items| > 0 && b.items[0].person == "Ana" && !b.items[0].deleted && b.items[0].status.Cancelled?
    && b.items[0].linked == Some(0) && b.items[0].total == 60 && b.items[0].remaining == 60
    && b.items[0].dedupe == None && b.payments == map[] && b.nextPayment == 0
    && 0 in b.transactions && b.transactions[0].direction.MoneyOut? && b.transactions[0].amount == 100
    && 1 in b.transactions && b.transactions[1].direction.MoneyIn? && b.transactions[1].amount == 110
  }

  /** Ana's row of 100, paid with the 110, of which 10 go to the cancelled item. */
  ghost predicate Revives(row: SplitRow) {
    && row.person == "Ana" && row.amount == 100 && row.payment.Some?
    && row.payment.value.linked == 1 && row.payment.value.amount == 110
    && |row.payment.value.extra| == 1 && row.payment.value.extra[0] == Requested(0, 10)
  }

  lemma {:induction false} RevivingRowIsPaid(b: Books, row: SplitRow, today: int)
    requires Inv(b) && HoldsDropped(b) && Revives(row)
    requires |b.items| == 2 && b.items[1].person == "Ana" && !b.items[1].deleted && b.items[1].remaining == 100
    ensures PaySplitRows(b, row.person, 1, [row], row.amount, today).Ok?
  {
    var extra := row.payment.value.extra;
    var p := RowPayment(row.person, row.payment.value, 1, OwnPart(row));
    assert p.requested == [Requested(1, 100)] + extra;
    TwoArePaid(b, p, today);
    assert extra[..0] == [] && RequestedTotal(extra) == 10;
    OneRowIsPaid(b, 1, row, today);
  }

  lemma {:induction false} OneDroppedTotals(b: Books)
    requires HoldsDropped(b) && |b.items| == 1
    ensures LinkedOwedTotal(b.items, 0, None) == 0
    ensures forall ids: set<nat> :: 0 in ids ==> CancelledTotal(b.items, ids, 0) == 60
  {
    assert b.items[..0] == [];
  }

  lemma {:induction false} RevivingDraft(row: SplitRow)
    requires Revives(row)
    ensures GroupDraft(Group(row.person, [row]), 0) == ItemDraft("Ana", 100, 0, None, Some(0), "manual", None)
  {
    TotalOfOneRow(row);
  }

  lemma {:induction false} RevivingDraftIsAccepted(b: Books, d: ItemDraft, now: int, today: int)
    requires HoldsDropped(b) && |b.items| == 1
    requires d == ItemDraft("Ana", 100, 0, None, Some(0), "manual", None)
    ensures CreateItem(b, d, now, today).Ok?
    ensures var b' := CreateItem(b, d, now, today).value;
      && |b'.items| == 2 && b'.items[0] == b.items[0] && b'.payments == b.payments && b'.nextPayment == b.nextPayment
      && b'.transactions == b.transactions
      && b'.items[1].person == "Ana" && !b'.items[1].deleted && b'.items[1].remaining == 100
  {
    OneDroppedTotals(b);
  }

  lemma {:induction false} RevivingItemIsCreated(b: Books, row: SplitRow, now: int, today: int)
    requires Inv(b) && HoldsDropped(b) && |b.items| == 1 && Revives(row)
    ensures CreateItem(b, GroupDraft(Group(row.person, [row]), 0), now, today).Ok?
    ensures var b' := CreateItem(b, GroupDraft(Group(row.person, [row]), 0), now, today).value;
      && Inv(b') && HoldsDropped(b') && |b'.items| == 2
      && b'.items[1].person == "Ana" && !b'.items[1].deleted && b'.items[1].remaining == 100
  {
    var d := GroupDraft(Group(row.person, [row]), 0);
    RevivingDraft(row);
    RevivingDraftIsAccepted(b, d, now, today);
    StepKeeps(b, Op(Create(d), now, today));
  }

  lemma {:induction false} RevivingSplitOvercommits(b: Books, row: SplitRow, now: int, today: int)
    requires Inv(b) && HoldsDropped(b) && |b.items| == 1 && Revives(row)
    ensures SplitTransaction(b, 0, [row], now, today).Ok? && LinkedOwedTotal(b.items, 0, None) == 0
    ensures LinkedOwedTotal(SplitTransaction(b, 0, [row], now, today).value.items, 0, None) == 160
  {
    RevivingItemIsCreated(b, row, now, today);
    RevivingRowIsPaid(CreateItem(b, GroupDraft(Group(row.person, [row]), 0), now, today).value, row, today);
    OneGroupIsPaid(b, 0, row, now, today);
    OneDroppedTotals(b);
    OneRowSplits(b, 0, row, now, today);
    SplitsRaiseLinkedTotals(b, 0, [row], now, today, 0);
    TotalOfOneRow(row);
    assert row.payment.value.extra[0].item == 0 && 0 in ExtrasAmong([row]);
  }

  /** A split that passes its own check can overcommit: 160 owed on a transaction of 100. */
  lemma {:induction false} SplitsCanOvercommit()
    ensures var b := Run(EMPTY_BOOKS, REVIVABLE);
      var split := SplitTransaction(b, 0, [REVIVING_ROW], 0, 1);
      && split.Ok? && 0 in b.transactions && b.transactions[0].amount == 100
      && LinkedOwedTotal(b.items, 0, None) == 0 && LinkedOwedTotal(split.value.items, 0, None) == 160
  {
    ReachDropped();
    EveryReachableStateIsSound(REVIVABLE);
    RevivingSplitOvercommits(Run(EMPTY_BOOKS, REVIVABLE), REVIVING_ROW, 0, 1);
  }

  /** So can lowering the amount of a transaction, which looks at no owed item. */
  lemma {:induction false} LoweringCanOvercommit()
    ensures var b := Run(EMPTY_BOOKS, OVERCOMMITTING);
      Within(b, 0) && !Within(After(b, Op(SaveTransaction(0, Transaction(MoneyOut, 50, 1)), 0, 1)), 0)
  {
    PaymentsCanOvercommit();
  }

  /** Money received together with its new transaction is accepted on the checks of any explicit payment, which look at no
      status: it reaches a cancelled item too. */
  lemma {:induction false} ReceivingIsAccepted(b: Books, id: nat, row: Transaction, p: PaymentDraft, now: int, today: int)
    requires Inv(b) && id !in b.transactions && row.direction.MoneyIn? && p.amount <= row.amount
    requires PaymentSchemaAccepts(p) && |p.requested| > 0 && RequestFits(b, p.person, p.amount, p.requested)
    ensures CreateTransactionWithOwed(b, id, row, [], Some(p), now, today).Ok?
  {
    var saved := b.(transactions := b.transactions[id := row]);
    StepKeeps(b, Op(SaveTransaction(id, row), now, today));
    NothingReceivedYet(b, id, b.nextPayment);
    ExplicitPaymentsApplyInFull(saved, p.(linked := Some(id)), today);
  }

  lemma {:induction false} NothingReceivedYet(b: Books, id: nat, below: nat)
    requires ReferencesStand(b) && id !in b.transactions
    ensures PaymentsLinkedTo(b.payments, id, below) == 0
  {
    if below > 0 {
      NothingReceivedYet(b, id, below - 1);
    }
  }
}
