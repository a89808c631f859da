/** What the combined commands leave behind, by fields: the items and payments they store and what they log. */
module OwedEffectLaws {
  import opened Outcomes
  import opened OwedBooks
  import opened OwedPayments
  import opened OwedCommands
  import opened OwedInvariant
  import opened OwedWaterfall
  import opened OwedEffects
  import opened OwedItemLaws
  import opened OwedPaymentLaws
  import opened OwedCommandLaws

  predicate LogsItem(e: OwedEvent, id: nat, item: Item, eventType: EventType, date: int) {
    e == OwedEvent(id, eventType, date, item.total, item.paid, item.remaining, item.status)
  }

  // ---------------------------------------------------------------- the log of a deletion with owed items

  /** One new entry for each of the items, in order: today, with the amounts and status the item has kept. */
  ghost predicate LogsDetached(b: Books, b': Books, ids: seq<nat>, strategy: Strategy, today: int) {
    && b.events <= b'.events && |b'.events| == |b.events| + |ids|
    && forall k :: 0 <= k < |ids| ==>
         && ids[k] < |b.items|
         && LogsItem(b'.events[|b.events| + k], ids[k], b.items[ids[k]],
                     if strategy.DeleteWithOwed? then Deletion else Adjusted, today)
  }

  lemma {:induction false} DetachingIsLogged(b: Books, ids: seq<nat>, strategy: Strategy, today: int)
    requires AllExist(b, ids) && DetachAll(b, ids, strategy, today).Ok?
    ensures LogsDetached(b, DetachAll(b, ids, strategy, today).value, ids, strategy, today)
    decreases |ids|
  {
    if |ids| > 0 {
      var b1, b' := DetachOne(b, ids[0], strategy, today).value, DetachAll(b, ids, strategy, today).value;
      DetachingIsLogged(b1, ids[1..], strategy, today);
      var eventType := if strategy.DeleteWithOwed? then Deletion else Adjusted;
      forall k | 0 <= k < |ids|
        ensures LogsItem(b'.events[|b.events| + k], ids[k], b.items[ids[k]], eventType, today)
      {
        if k == 0 {
          assert b'.events[|b.events|] == b1.events[|b.events|];
        } else {
          assert ids[1..][k - 1] == ids[k];
          assert LogsItem(b'.events[|b1.events| + (k - 1)], ids[k], b1.items[ids[k]], eventType, today);
        }
      }
    }
  }

  /** Deleting a transaction with its owed items logs each item that hung on it once, by ascending id. */
  lemma {:induction false} DeletionWithOwedIsLogged(b: Books, t: nat, expectedIds: seq<nat>, expected: Version,
                                                    strategy: Strategy, today: int) returns (ids: seq<nat>)
    requires DeleteTransactionWithOwed(b, t, expectedIds, expected, strategy, today).Ok?
    ensures forall i: nat :: i in ids <==> HangsOn(b, t, i)
    ensures forall j, k :: 0 <= j < k < |ids| ==> ids[j] < ids[k]
    ensures LogsDetached(b, DeleteTransactionWithOwed(b, t, expectedIds, expected, strategy, today).value, ids, strategy,
                         today)
  {
    ids := LinkedItems(b, t);
    LinkedItemsExist(b, t);
    HangingItems(b, t);
    DetachingIsLogged(b, ids, strategy, today);
    forall j, k | 0 <= j < k < |ids| ensures ids[j] < ids[k] {
      NotLaterIsSmaller(ids[j], ids[k]);
    }
  }

  // ---------------------------------------------------------------- the items of a new transaction

  /** The draft's fields, linked to the transaction, with the status that the amounts tell. */
  predicate IsDraftedItem(item: Item, d: ItemDraft, t: nat, now: int, today: int) {
    && item == Item(d.person, d.total, d.paid, d.total - d.paid, item.status, Some(t), KeyUnder(d, t), now, today, false)
    && TellsAmounts(item.status, d.paid, d.total - d.paid)
  }

  /** One new item for each draft, in order, each logged as created on the given date. */
  ghost predicate AddsDrafts(b: Books, b': Books, drafts: seq<ItemDraft>, t: nat, date: int, now: int, today: int) {
    && b.items <= b'.items && |b'.items| == |b.items| + |drafts|
    && b.events <= b'.events && |b'.events| == |b.events| + |drafts|
    && forall k :: 0 <= k < |drafts| ==>
         && IsDraftedItem(b'.items[|b.items| + k], drafts[k], t, now, today)
         && LogsItem(b'.events[|b.events| + k], |b.items| + k, b'.items[|b.items| + k], Created, date)
  }

  lemma {:induction false} DraftsInTurn(b: Books, b1: Books, b': Books, drafts: seq<ItemDraft>, t: nat, date: int, now: int,
                                        today: int)
    requires |drafts| > 0 && AddsDrafts(b, b1, [drafts[0]], t, date, now, today)
    requires AddsDrafts(b1, b', drafts[1..], t, date, now, today)
    ensures AddsDrafts(b, b', drafts, t, date, now, today)
  {
    forall k | 0 <= k < |drafts|
      ensures IsDraftedItem(b'.items[|b.items| + k], drafts[k], t, now, today)
      ensures LogsItem(b'.events[|b.events| + k], |b.items| + k, b'.items[|b.items| + k], Created, date)
    {
      if k == 0 {
        assert b'.items[|b.items|] == b1.items[|b.items|] && b'.events[|b.events|] == b1.events[|b.events|];
        assert IsDraftedItem(b1.items[|b.items| + 0], [drafts[0]][0], t, now, today);
      } else {
        assert drafts[1..][k - 1] == drafts[k];
        assert IsDraftedItem(b'.items[|b1.items| + (k - 1)], drafts[k], t, now, today);
      }
    }
  }

  lemma {:induction false} DraftIsStored(b: Books, d: ItemDraft, t: nat, now: int, today: int)
    requires t in b.transactions && CreateItem(b, d.(linked := Some(t)), now, today).Ok?
    ensures var b' := CreateItem(b, d.(linked := Some(t)), now, today).value;
      OnlyItemsAndLog(b, b') && AddsDrafts(b, b', [d], t, b.transactions[t].date, now, today)
  {
    CreatedByFields(b, d.(linked := Some(t)), now, today);
    var b' := CreateItem(b, d.(linked := Some(t)), now, today).value;
    assert b'.items[..|b.items|] == b.items && [d][0] == d;
    assert IsDraftedItem(b'.items[|b.items|], d, t, now, today);
  }

  lemma {:induction false} DraftsAreStored(b: Books, drafts: seq<ItemDraft>, t: nat, now: int, today: int)
    requires t in b.transactions && CreateItems(b, drafts, t, now, today).Ok?
    ensures var b' := CreateItems(b, drafts, t, now, today).value;
      OnlyItemsAndLog(b, b') && AddsDrafts(b, b', drafts, t, b.transactions[t].date, now, today)
    decreases |drafts|
  {
    if |drafts| > 0 {
      var b1 := CreateItem(b, drafts[0].(linked := Some(t)), now, today).value;
      DraftIsStored(b, drafts[0], t, now, today);
      DraftsAreStored(b1, drafts[1..], t, now, today);
      DraftsInTurn(b, b1, CreateItems(b1, drafts[1..], t, now, today).value, drafts, t, b.transactions[t].date, now, today);
    }
  }

  lemma {:induction false} SameItemsAndLog(opening: Books, b: Books, b': Books, drafts: seq<ItemDraft>, t: nat, date: int,
                                           now: int, today: int)
    requires AddsDrafts(opening, b', drafts, t, date, now, today)
    requires opening.items == b.items && opening.events == b.events
    ensures AddsDrafts(b, b', drafts, t, date, now, today)
  {
  }

  /** Money out created with owed items is stored with one item for each draft, and nothing else changes. */
  lemma {:induction false} CreationStoresItsDrafts(b: Books, t: nat, row: Transaction, drafts: seq<ItemDraft>, now: int,
                                                   today: int)
    requires CreateTransactionWithOwed(b, t, row, drafts, None, now, today).Ok?
    ensures var b' := CreateTransactionWithOwed(b, t, row, drafts, None, now, today).value;
      && AddsDrafts(b, b', drafts, t, row.date, now, today)
      && b' == b.(items := b'.items, events := b'.events, transactions := b.transactions[t := row])
  {
    var opening := b.(transactions := b.transactions[t := row]);
    DraftsAreStored(opening, drafts, t, now, today);
    SameItemsAndLog(opening, b, CreateItems(opening, drafts, t, now, today).value, drafts, t, row.date, now, today);
  }

  // ---------------------------------------------------------------- the payments of a split

  /** The rows a person's paid split rows store: the person's, each under the transaction it names. */
  function PaymentsOf(person: string, rows: seq<SplitRow>): seq<PaymentRow> {
    if |rows| == 0 then []
    else
      (match rows[0].payment
       case None => []
       case Some(p) => [PaymentRow(person, p.date, p.amount, Some(p.linked))])
      + PaymentsOf(person, rows[1..])
  }

  function PaymentsOfGroups(groups: seq<Group>): seq<PaymentRow> {
    if |groups| == 0 then [] else PaymentsOf(groups[0].person, groups[0].rows) + PaymentsOfGroups(groups[1..])
  }

  /** The payments are those there were and, under the next ids, these rows in order. */
  ghost predicate AddsPayments(b: Books, b': Books, s: seq<PaymentRow>) {
    && b'.nextPayment == b.nextPayment + |s| && b'.transactions == b.transactions
    && forall q: nat :: PaymentAt(b', q) ==
         if b.nextPayment <= q < b.nextPayment + |s| then Some(s[q - b.nextPayment]) else PaymentAt(b, q)
  }

  function PaymentAt(b: Books, q: nat): Option<PaymentRow> {
    if q in b.payments then Some(b.payments[q]) else None
  }

  lemma {:induction false} PaymentsInTurn(b: Books, b1: Books, b': Books, s: seq<PaymentRow>, t: seq<PaymentRow>)
    requires AddsPayments(b, b1, s) && AddsPayments(b1, b', t)
    ensures AddsPayments(b, b', s + t)
  {
  }

  lemma {:induction false} NoPaymentsAdded(b: Books, b': Books)
    requires b'.payments == b.payments && b'.nextPayment == b.nextPayment && b'.transactions == b.transactions
    ensures AddsPayments(b, b', [])
  {
  }

  lemma {:induction false} PaymentAddsItsRow(b: Books, p: PaymentDraft, today: int)
    requires Inv(b) && RecordPayment(b, p, today).Ok?
    ensures AddsPayments(b, RecordPayment(b, p, today).value, [PaymentRow(p.person, p.date, p.amount, p.linked)])
  {
    PaymentSettlesGrants(b, p, today);
  }

  /** A paid row is the explicit payment it describes, made first to the person's new item: the smaller of payment and row,
      and then what it asks for besides. Asking for more than the payment is refused at once. */
  lemma {:induction false} RowIsItsPayment(b: Books, person: string, id: nat, row: SplitRow, left: int, today: int,
                                           p: SplitPayment)
    requires row.payment == Some(p) && RowSchemaAccepts(row) && left >= row.amount
    ensures var own := if p.amount <= row.amount then p.amount else row.amount;
      var draft := PaymentDraft(person, p.date, p.amount, Some(p.linked), None, [Requested(id, own)] + p.extra);
      RowStep(b, person, id, row, left, today)
      == if own + AskedInAll(p.extra) > p.amount then Refused(400)
         else match RecordPayment(b, draft, today)
           case Refused(status) => Refused(status)
           case Ok(b') => Ok((b', left - own))
  {
    RowIsStillOwed(row, left);
    AskedIsRequested(p.extra, 0);
  }

  lemma {:induction false} RowAddsItsPayment(b: Books, person: string, id: nat, row: SplitRow, left: int, today: int)
    requires Inv(b) && left > 0 && RowStep(b, person, id, row, left, today).Ok?
    ensures AddsPayments(b, RowStep(b, person, id, row, left, today).value.0, PaymentsOf(person, [row]))
  {
    assert [row][1..] == [];
    if row.payment.None? {
      NoPaymentsAdded(b, b);
    } else {
      var allocation := Least(Least(row.payment.value.amount, row.amount), left);
      PaymentAddsItsRow(b, RowPayment(person, row.payment.value, id, allocation), today);
    }
  }

  lemma {:induction false} RowsAddPayments(b: Books, person: string, id: nat, rows: seq<SplitRow>, left: int, today: int)
    requires Inv(b) && id < |b.items| && b.items[id].person == person
    requires AllRowsAccepted(rows) && left >= RowsTotal(rows)
    requires PaySplitRows(b, person, id, rows, left, today).Ok?
    ensures AddsPayments(b, PaySplitRows(b, person, id, rows, left, today).value, PaymentsOf(person, rows))
    decreases |rows|
  {
    if |rows| == 0 {
      NoPaymentsAdded(b, b);
    } else {
      var b1, rest := FirstRowGives(b, person, id, rows, left, today);
      RowsFromFront(rows);
      RowAddsItsPayment(b, person, id, rows[0], left, today);
      RowsAddPayments(b1, person, id, rows[1..], rest, today);
      PaymentsFromFront(person, rows);
      PaymentsInTurn(b, b1, PaySplitRows(b, person, id, rows, left, today).value, PaymentsOf(person, [rows[0]]),
                     PaymentsOf(person, rows[1..]));
    }
  }

  lemma {:induction false} PaymentsFromFront(person: string, rows: seq<SplitRow>)
    requires |rows| > 0
    ensures PaymentsOf(person, rows) == PaymentsOf(person, [rows[0]]) + PaymentsOf(person, rows[1..])
  {
    assert [rows[0]][1..] == [];
  }

  lemma {:induction false} GroupAddsPayments(b: Books, t: nat, g: Group, now: int, today: int)
    requires Inv(b) && AllRowsAccepted(g.rows) && AfterGroup(b, t, g, now, today).Ok?
    ensures Inv(AfterGroup(b, t, g, now, today).value)
    ensures AddsPayments(b, AfterGroup(b, t, g, now, today).value, PaymentsOf(g.person, g.rows))
  {
    var created := CreateItem(b, GroupDraft(g, t), now, today).value;
    ItemIsCreated(b, g, t, now, today);
    CreatedByFields(b, GroupDraft(g, t), now, today);
    OneGroupSplit(b, t, g, now, today);
    NoPaymentsAdded(b, created);
    RowsAddPayments(created, g.person, |b.items|, g.rows, RowsTotal(g.rows), today);
    PaymentsInTurn(b, created, AfterGroup(b, t, g, now, today).value, [], PaymentsOf(g.person, g.rows));
    assert [] + PaymentsOf(g.person, g.rows) == PaymentsOf(g.person, g.rows);
  }

  lemma {:induction false} GroupsAddPayments(b: Books, t: nat, groups: seq<Group>, now: int, today: int)
    requires Inv(b) && AllGroupsAccepted(groups) && SplitGroups(b, t, groups, now, today).Ok?
    ensures AddsPayments(b, SplitGroups(b, t, groups, now, today).value, PaymentsOfGroups(groups))
    decreases |groups|
  {
    if |groups| == 0 {
      NoPaymentsAdded(b, b);
    } else {
      var b1 := AfterGroup(b, t, groups[0], now, today).value;
      GroupAddsPayments(b, t, groups[0], now, today);
      GroupsAddPayments(b1, t, groups[1..], now, today);
      PaymentsInTurn(b, b1, SplitGroups(b1, t, groups[1..], now, today).value,
                     PaymentsOf(groups[0].person, groups[0].rows), PaymentsOfGroups(groups[1..]));
    }
  }

  /** A split stores one payment for each of its paid rows, group by group, with the date, amount and transaction that the
      row gives. */
  lemma {:induction false} SplitStoresItsPayments(b: Books, t: nat, rows: seq<SplitRow>, now: int, today: int)
    requires Inv(b) && SplitTransaction(b, t, rows, now, today).Ok?
    ensures AddsPayments(b, SplitTransaction(b, t, rows, now, today).value, PaymentsOfGroups(GroupByPerson(rows)))
  {
    GroupsAreAccepted(rows);
    GroupsAddPayments(b, t, GroupByPerson(rows), now, today);
  }

  // ---------------------------------------------------------------- the order of the groups

  /** A row of one person comes before all rows of the other. */
  ghost predicate AppearsBefore(rows: seq<SplitRow>, person: string, other: string) {
    exists a :: 0 <= a < |rows| && rows[a].person == person && forall c :: 0 <= c <= a ==> rows[c].person != other
  }

  lemma {:induction false} AddedToOneGroup(groups: seq<Group>, row: SplitRow)
    ensures var added := AddToGroups(groups, row);
      && (forall k :: 0 <= k < |groups| ==> k < |added| && added[k].person == groups[k].person)
      && (row.person in PeopleOf(groups) ==> |added| == |groups|)
      && (row.person !in PeopleOf(groups) ==> |added| == |groups| + 1 && added[|groups|].person == row.person)
    decreases |groups|
  {
    if |groups| > 0 && groups[0].person != row.person {
      AddedToOneGroup(groups[1..], row);
      assert AddToGroups(groups, row) == [groups[0]] + AddToGroups(groups[1..], row);
    }
  }

  /** Groups come in the order in which their people first appear. */
  lemma {:induction false} GroupsComeByFirstRow(rows: seq<SplitRow>, j: nat, k: nat)
    requires j < k < |GroupByPerson(rows)|
    ensures AppearsBefore(rows, GroupByPerson(rows)[j].person, GroupByPerson(rows)[k].person)
  {
    var init, row := rows[..|rows| - 1], rows[|rows| - 1];
    var groups, added := GroupByPerson(init), GroupByPerson(rows);
    AddedToOneGroup(groups, row);
    if k < |groups| {
      GroupsComeByFirstRow(init, j, k);
      var a :| 0 <= a < |init| && init[a].person == groups[j].person
        && forall c :: 0 <= c <= a ==> init[c].person != groups[k].person;
      assert rows[a].person == added[j].person && forall c :: 0 <= c <= a ==> rows[c] == init[c];
    } else {
      PersonOfGroup(groups, j);
      PeopleOfRows(init, groups[j].person);
      var a :| 0 <= a < |init| && init[a].person == groups[j].person;
      forall c | 0 <= c <= a ensures rows[c].person != added[k].person {
        PeopleOfRows(init, row.person);
        assert rows[c] == init[c];
      }
      assert rows[a].person == added[j].person;
    }
  }
}
