/** What updates, splits and deletions with owed items leave behind. */
module OwedEffects {
  import opened Outcomes
  import opened Ordering
  import opened OwedBooks
  import opened OwedPayments
  import opened OwedCommands
  import opened OwedInvariant
  import opened OwedMoves
  import opened OwedHistory
  import opened OwedSettlement
  import opened OwedWaterfall

  // ---------------------------------------------------------------- updates

  /** An update changes its item alone, and is logged exactly when it moves an amount or the status; the event says
      whether it cancelled, reopened or adjusted the item. */
  lemma {:induction false} UpdatesAreLoggedWhenTheyMoveMoney(b: Books, id: nat, p: ItemPatch, today: int)
    requires Inv(b) && UpdateItem(b, id, p, today).Ok?
    ensures Visible(b, id) && |UpdateItem(b, id, p, today).value.items| == |b.items|
    ensures var b' := UpdateItem(b, id, p, today).value;
      var was, now := b.items[id], b'.items[id];
      && (forall i :: 0 <= i < |b.items| && i != id ==> b'.items[i] == b.items[i])
      && b'.payments == b.payments && b'.allocations == b.allocations && b'.transactions == b.transactions
      && ItemBalances(now) && (p.status.None? ==> now.status == CalculateStatus(now.paid, now.remaining))
      && if (now.total, now.paid, now.status) == (was.total, was.paid, was.status) then b'.events == b.events
         else
           && |b'.events| == |b.events| + 1 && b.events <= b'.events
           && var e := b'.events[|b.events|];
           && e.item == id && e.date == today && Mirrors(e, now)
           && (e.eventType.Cancellation? <==> now.status.Cancelled? && !was.status.Cancelled?)
           && (e.eventType.Reopened? <==> was.status.Cancelled? && !now.status.Cancelled?)
  {
  }

  // ---------------------------------------------------------------- splits

  function RowOf(person: string): SplitRow -> bool {
    (r: SplitRow) => r.person == person
  }

  function RowsFor(groups: seq<Group>, person: string): seq<SplitRow> {
    if |groups| == 0 then []
    else if groups[0].person == person then groups[0].rows
    else RowsFor(groups[1..], person)
  }

  function PeopleOf(groups: seq<Group>): set<string> {
    if |groups| == 0 then {} else {groups[0].person} + PeopleOf(groups[1..])
  }

  ghost predicate PeopleDiffer(groups: seq<Group>) {
    |groups| == 0 || (groups[0].person !in PeopleOf(groups[1..]) && PeopleDiffer(groups[1..]))
  }

  function GroupsTotal(groups: seq<Group>): int {
    if |groups| == 0 then 0 else RowsTotal(groups[0].rows) + GroupsTotal(groups[1..])
  }

  lemma {:induction false} RowsTotalOneMore(rows: seq<SplitRow>, row: SplitRow)
    ensures RowsTotal(rows + [row]) == RowsTotal(rows) + row.amount
  {
  }

  lemma {:induction false} AddingToGroups(groups: seq<Group>, row: SplitRow, person: string)
    ensures RowsFor(AddToGroups(groups, row), person)
         == RowsFor(groups, person) + if row.person == person then [row] else []
    ensures PeopleOf(AddToGroups(groups, row)) == PeopleOf(groups) + {row.person}
    ensures PeopleDiffer(groups) ==> PeopleDiffer(AddToGroups(groups, row))
    ensures GroupsTotal(AddToGroups(groups, row)) == GroupsTotal(groups) + row.amount
    decreases |groups|
  {
    if |groups| == 0 {
      RowsTotalOneMore([], row);
      assert [] + [row] == [row];
    } else if groups[0].person == row.person {
      RowsTotalOneMore(groups[0].rows, row);
    } else {
      AddingToGroups(groups[1..], row, person);
      assert AddToGroups(groups, row)[1..] == AddToGroups(groups[1..], row);
    }
  }

  /** Grouping gives each person one group, holding exactly that person's rows in order; amounts are kept. */
  lemma {:induction false} GroupsHoldEachPersonsRows(rows: seq<SplitRow>, person: string)
    ensures RowsFor(GroupByPerson(rows), person) == Keep(RowOf(person), rows)
    ensures person in PeopleOf(GroupByPerson(rows)) <==> Keep(RowOf(person), rows) != []
    ensures PeopleDiffer(GroupByPerson(rows))
    ensures GroupsTotal(GroupByPerson(rows)) == RowsTotal(rows)
  {
    if |rows| > 0 {
      GroupsHoldEachPersonsRows(rows[..|rows| - 1], person);
      AddingToGroups(GroupByPerson(rows[..|rows| - 1]), rows[|rows| - 1], person);
    }
  }

  /** Items keep who owes them, how much in all, and for which transaction. */
  ghost predicate TermsKept(b: Books, b': Books) {
    && |b.items| <= |b'.items|
    && forall i :: 0 <= i < |b.items| ==>
         b'.items[i].person == b.items[i].person && b'.items[i].total == b.items[i].total
         && b'.items[i].linked == b.items[i].linked
  }

  /** The part of a row's payment that goes to the row's own item. */
  function OwnPart(row: SplitRow): int {
    match row.payment
    case None => 0
    case Some(p) => if p.amount <= row.amount then p.amount else row.amount
  }

  /** What the payments of a person's rows give item `i`, of which `id` is the person's new one. */
  function GivenByRows(i: nat, id: nat, rows: seq<SplitRow>): int {
    if |rows| == 0 then 0
    else
      (if i == id then OwnPart(rows[0]) else 0)
      + (if rows[0].payment.Some? then RequestedFor(i, rows[0].payment.value.extra) else 0)
      + GivenByRows(i, id, rows[1..])
  }

  predicate AllRowsAccepted(rows: seq<SplitRow>) {
    forall k | 0 <= k < |rows| :: RowSchemaAccepts(rows[k])
  }

  lemma {:induction false} RowsFromFront(rows: seq<SplitRow>)
    requires |rows| > 0 && AllRowsAccepted(rows)
    ensures RowsTotal(rows) == rows[0].amount + RowsTotal(rows[1..])
    ensures RowsTotal(rows[1..]) >= 0 && AllRowsAccepted(rows[1..])
  {
    if |rows| > 1 {
      RowsFromFront(rows[..|rows| - 1]);
      assert rows[1..][..|rows| - 2] == rows[..|rows| - 1][1..];
    } else {
      assert rows[1..] == [] && rows[..0] == [];
    }
  }

  function GivenBy(id: nat, rows: seq<SplitRow>): nat -> int {
    (i: nat) => GivenByRows(i, id, rows)
  }

  /** Each item's paid amount has moved by `given`. */
  ghost predicate PaidMoved(b: Books, b': Books, given: nat -> int) {
    |b'.items| == |b.items| && forall i :: 0 <= i < |b.items| ==> b'.items[i].paid == b.items[i].paid + given(i)
  }

  lemma {:induction false} RowGrants(i: nat, person: string, id: nat, row: SplitRow)
    requires row.payment.Some? && RowSchemaAccepts(row)
    ensures var s := RowPayment(person, row.payment.value, id, OwnPart(row)).requested;
      |s| > 0 && s[0].item == id && GivenByRows(i, id, [row]) == RequestedFor(i, s)
  {
    var s := RowPayment(person, row.payment.value, id, OwnPart(row)).requested;
    assert s == [Requested(id, OwnPart(row))] + row.payment.value.extra;
    assert s[1..] == row.payment.value.extra;
    RequestedFromFront(i, s);
    assert [row][1..] == [];
  }

  /** An explicit payment moves the paid amounts by what it requests, and requests only items of its person. */
  lemma {:induction false} RequestsMovePaid(b: Books, p: PaymentDraft, today: int, i: nat)
    requires Inv(b) && RecordPayment(b, p, today).Ok? && |p.requested| > 0 && i < |b.items|
    ensures |RecordPayment(b, p, today).value.items| == |b.items|
    ensures RecordPayment(b, p, today).value.items[i].paid == b.items[i].paid + RequestedFor(i, p.requested)
    ensures b.items[i].person != p.person ==> RequestedFor(i, p.requested) == 0
    ensures p.requested[0].item < |b.items| && b.items[p.requested[0].item].person == p.person
  {
    PaymentSettlesGrants(b, p, today);
    RequestedIsPositive(i, p.requested);
  }

  lemma {:induction false} OnePaymentGives(b: Books, person: string, id: nat, row: SplitRow, today: int)
    requires Inv(b) && id < |b.items| && row.payment.Some? && RowSchemaAccepts(row)
    requires RecordPayment(b, RowPayment(person, row.payment.value, id, OwnPart(row)), today).Ok?
    ensures var b' := RecordPayment(b, RowPayment(person, row.payment.value, id, OwnPart(row)), today).value;
      && Inv(b') && TermsKept(b, b') && PaidMoved(b, b', GivenBy(id, [row]))
      && b.items[id].person == person
      && forall i :: 0 <= i < |b.items| && b.items[i].person != person ==> GivenByRows(i, id, [row]) == 0
  {
    var p := RowPayment(person, row.payment.value, id, OwnPart(row));
    var b' := RecordPayment(b, p, today).value;
    PaymentsKeepTerms(b, p, today);
    RowGrants(id, person, id, row);
    forall i: nat | i < |b.items|
      ensures b'.items[i].paid == b.items[i].paid + GivenByRows(i, id, [row])
      ensures b.items[i].person != person ==> GivenByRows(i, id, [row]) == 0
    {
      RowGrants(i, person, id, row);
      RequestsMovePaid(b, p, today, i);
    }
    RequestsMovePaid(b, p, today, id);
  }

  lemma {:induction false} PaymentsKeepTerms(b: Books, p: PaymentDraft, today: int)
    requires Inv(b) && RecordPayment(b, p, today).Ok?
    ensures var b' := RecordPayment(b, p, today).value;
      Inv(b') && TermsKept(b, b') && |b'.items| == |b.items|
  {
    PaymentSettlesGrants(b, p, today);
    StepKeeps(b, Op(Pay(p), 0, today));
  }

  lemma {:induction false} GivenInTurn(i: nat, id: nat, rows: seq<SplitRow>)
    requires |rows| > 0
    ensures GivenByRows(i, id, rows) == GivenByRows(i, id, [rows[0]]) + GivenByRows(i, id, rows[1..])
  {
    assert [rows[0]][1..] == [];
  }

  /** The person still owes the row, so its payment gives the new item the smaller of payment and row. */
  lemma {:induction false} RowIsStillOwed(row: SplitRow, left: int)
    requires row.payment.Some? && RowSchemaAccepts(row) && left >= row.amount
    ensures Least(Least(row.payment.value.amount, row.amount), left) == OwnPart(row) && left > 0
  {
  }

  ghost predicate StrangersGetNothing(b: Books, person: string, given: nat -> int) {
    forall i :: 0 <= i < |b.items| && b.items[i].person != person ==> given(i) == 0
  }

  lemma {:induction false} UnpaidRowGives(row: SplitRow, id: nat)
    requires row.payment.None?
    ensures forall i: nat :: GivenBy(id, [row])(i) == 0
  {
    forall i: nat ensures GivenBy(id, [row])(i) == 0 {
      GivenInTurn(i, id, [row]);
      assert GivenByRows(i, id, []) == 0 && [row][1..] == [];
      assert GivenByRows(i, id, [row]) == 0;
    }
  }

  lemma {:induction false} FirstRowGives(b: Books, person: string, id: nat, rows: seq<SplitRow>, left: int, today: int)
    returns (b1: Books, rest: int)
    requires |rows| > 0 && Inv(b) && id < |b.items| && b.items[id].person == person
    requires AllRowsAccepted(rows) && left >= RowsTotal(rows)
    requires PaySplitRows(b, person, id, rows, left, today).Ok?
    ensures PaySplitRows(b, person, id, rows, left, today) == PaySplitRows(b1, person, id, rows[1..], rest, today)
    ensures RowStep(b, person, id, rows[0], left, today) == Ok((b1, rest))
    ensures AllRowsAccepted(rows[1..]) && rest >= RowsTotal(rows[1..])
    ensures Inv(b1) && TermsKept(b, b1) && PaidMoved(b, b1, GivenBy(id, [rows[0]]))
    ensures StrangersGetNothing(b, person, GivenBy(id, [rows[0]]))
  {
    RowsFromFront(rows);
    var row := rows[0];
    if row.payment.None? {
      UnpaidRowGives(row, id);
      b1, rest := b, left;
    } else {
      RowIsStillOwed(row, left);
      var draft := RowPayment(person, row.payment.value, id, OwnPart(row));
      OnePaymentGives(b, person, id, row, today);
      b1, rest := RecordPayment(b, draft, today).value, left - OwnPart(row);
    }
  }

  /** While a person's rows are paid the person always still owes the rows to come, so every payment is recorded: the
      new item gets the smaller of payment and row each time, and every item what the extra allocations name. */
  lemma {:induction false} RowPaymentsGive(b: Books, person: string, id: nat, rows: seq<SplitRow>, left: int, today: int)
    requires Inv(b) && id < |b.items| && b.items[id].person == person
    requires AllRowsAccepted(rows) && left >= RowsTotal(rows)
    requires PaySplitRows(b, person, id, rows, left, today).Ok?
    ensures var b' := PaySplitRows(b, person, id, rows, left, today).value;
      Inv(b') && TermsKept(b, b') && PaidMoved(b, b', GivenBy(id, rows))
    ensures StrangersGetNothing(b, person, GivenBy(id, rows))
    decreases |rows|
  {
    if |rows| > 0 {
      var b1, rest := FirstRowGives(b, person, id, rows, left, today);
      RowPaymentsGive(b1, person, id, rows[1..], rest, today);
      GivenInBothTurns(b, b1, PaySplitRows(b1, person, id, rows[1..], rest, today).value, person, id, rows);
    }
  }

  lemma {:induction false} GivenInBothTurns(b: Books, b1: Books, b': Books, person: string, id: nat, rows: seq<SplitRow>)
    requires |rows| > 0 && TermsKept(b, b1) && TermsKept(b1, b')
    requires PaidMoved(b, b1, GivenBy(id, [rows[0]])) && PaidMoved(b1, b', GivenBy(id, rows[1..]))
    requires StrangersGetNothing(b, person, GivenBy(id, [rows[0]]))
    requires StrangersGetNothing(b1, person, GivenBy(id, rows[1..]))
    ensures TermsKept(b, b') && PaidMoved(b, b', GivenBy(id, rows))
    ensures StrangersGetNothing(b, person, GivenBy(id, rows))
  {
    forall i: nat | i < |b.items|
      ensures b'.items[i].paid == b.items[i].paid + GivenBy(id, rows)(i)
      ensures b.items[i].person != person ==> GivenBy(id, rows)(i) == 0
    {
      GivenInTurn(i, id, rows);
      assert GivenBy(id, [rows[0]])(i) == GivenByRows(i, id, [rows[0]]);
      assert GivenBy(id, rows[1..])(i) == GivenByRows(i, id, rows[1..]);
    }
  }

  /** What the payments of a split give an item there was before. */
  function GivenByGroups(i: nat, first: nat, groups: seq<Group>): int
    decreases |groups|
  {
    if |groups| == 0 then 0 else GivenByRows(i, first, groups[0].rows) + GivenByGroups(i, first + 1, groups[1..])
  }

  /** The new items, one for each group in order, paid what the group's own rows give them. */
  ghost predicate OneItemEach(b: Books, b': Books, transaction: nat, groups: seq<Group>) {
    && |b'.items| == |b.items| + |groups|
    && forall k :: 0 <= k < |groups| ==> IsSplitItem(b'.items[|b.items| + k], |b.items| + k, transaction, groups[k])
  }

  ghost predicate IsSplitItem(item: Item, id: nat, transaction: nat, g: Group) {
    && item.person == g.person && item.total == RowsTotal(g.rows) && item.linked == Some(transaction)
    && item.paid == GivenByRows(id, id, g.rows)
  }

  /** The items there were: same terms, paid what the extra allocations give them, and nothing by a stranger's rows. */
  ghost predicate OthersPaid(b: Books, b': Books, groups: seq<Group>) {
    && TermsKept(b, b')
    && (forall i :: 0 <= i < |b.items| ==> b'.items[i].paid == b.items[i].paid + GivenByGroups(i, |b.items|, groups))
    && (forall i :: 0 <= i < |b.items| && b.items[i].person !in PeopleOf(groups) ==> GivenByGroups(i, |b.items|, groups) == 0)
  }

  function GroupDraft(g: Group, transaction: nat): ItemDraft {
    ItemDraft(g.person, RowsTotal(g.rows), 0, None, Some(transaction), "manual", None)
  }

  function AfterGroup(b: Books, transaction: nat, g: Group, now: int, today: int): Result<Books> {
    var created :- CreateItem(b, GroupDraft(g, transaction), now, today);
    PaySplitRows(created, g.person, |b.items|, g.rows, RowsTotal(g.rows), today)
  }

  lemma {:induction false} ItemIsCreated(b: Books, g: Group, transaction: nat, now: int, today: int)
    requires Inv(b) && CreateItem(b, GroupDraft(g, transaction), now, today).Ok?
    ensures var b' := CreateItem(b, GroupDraft(g, transaction), now, today).value;
      && Inv(b') && |b'.items| == |b.items| + 1 && b'.items[..|b.items|] == b.items
      && var item := b'.items[|b.items|];
      && item.person == g.person && item.total == RowsTotal(g.rows) && item.linked == Some(transaction) && item.paid == 0
  {
    StepKeeps(b, Op(Create(GroupDraft(g, transaction)), now, today));
  }

  lemma {:induction false} OneGroupSplit(b: Books, transaction: nat, g: Group, now: int, today: int)
    requires Inv(b) && AllRowsAccepted(g.rows) && AfterGroup(b, transaction, g, now, today).Ok?
    ensures var b' := AfterGroup(b, transaction, g, now, today).value;
      && Inv(b') && OthersPaid(b, b', [g]) && |b'.items| == |b.items| + 1
      && IsSplitItem(b'.items[|b.items|], |b.items|, transaction, g)
  {
    var created := CreateItem(b, GroupDraft(g, transaction), now, today).value;
    ItemIsCreated(b, g, transaction, now, today);
    RowPaymentsGive(created, g.person, |b.items|, g.rows, RowsTotal(g.rows), today);
    GroupPaid(b, created, AfterGroup(b, transaction, g, now, today).value, g);
  }

  lemma {:induction false} GroupPaid(b: Books, created: Books, b': Books, g: Group)
    requires |created.items| == |b.items| + 1 && created.items[..|b.items|] == b.items
    requires TermsKept(created, b') && PaidMoved(created, b', GivenBy(|b.items|, g.rows))
    requires StrangersGetNothing(created, g.person, GivenBy(|b.items|, g.rows))
    ensures OthersPaid(b, b', [g])
  {
    assert [g][1..] == [];
    forall i: nat | i < |b.items|
      ensures GivenByGroups(i, |b.items|, [g]) == GivenByRows(i, |b.items|, g.rows)
      ensures created.items[i] == b.items[i]
    {
      assert created.items[..|b.items|][i] == created.items[i];
    }
  }

  lemma {:induction false} SplitItemsInTurn(b: Books, b1: Books, b': Books, transaction: nat, groups: seq<Group>)
    requires |groups| > 0 && PeopleDiffer(groups)
    requires OthersPaid(b, b1, [groups[0]]) && |b1.items| == |b.items| + 1
    requires IsSplitItem(b1.items[|b.items|], |b.items|, transaction, groups[0])
    requires OthersPaid(b1, b', groups[1..]) && OneItemEach(b1, b', transaction, groups[1..])
    ensures OthersPaid(b, b', groups) && OneItemEach(b, b', transaction, groups)
  {
    var n := |b.items|;
    forall k | 0 <= k < |groups| ensures IsSplitItem(b'.items[n + k], n + k, transaction, groups[k]) {
      if k > 0 { assert IsSplitItem(b'.items[|b1.items| + (k - 1)], |b1.items| + (k - 1), transaction, groups[1..][k - 1]); }
    }
    assert [groups[0]][1..] == [];
    assert PeopleOf(groups) == PeopleOf([groups[0]]) + PeopleOf(groups[1..]);
    forall i: nat | i < n
      ensures GivenByGroups(i, n, groups) == GivenByGroups(i, n, [groups[0]]) + GivenByGroups(i, n + 1, groups[1..])
      ensures b.items[i].person !in PeopleOf(groups) ==> GivenByGroups(i, n, groups) == 0
    {
      assert b1.items[i].person == b.items[i].person;
    }
  }

  ghost predicate AllGroupsAccepted(groups: seq<Group>) {
    forall k :: 0 <= k < |groups| ==> AllRowsAccepted(groups[k].rows)
  }

  lemma {:induction false} SplitGroupsCreate(b: Books, transaction: nat, groups: seq<Group>, now: int, today: int)
    requires Inv(b) && AllGroupsAccepted(groups) && PeopleDiffer(groups)
    requires SplitGroups(b, transaction, groups, now, today).Ok?
    ensures var b' := SplitGroups(b, transaction, groups, now, today).value;
      OthersPaid(b, b', groups) && OneItemEach(b, b', transaction, groups)
    decreases |groups|
  {
    if |groups| > 0 {
      OneGroupSplit(b, transaction, groups[0], now, today);
      var b1 := AfterGroup(b, transaction, groups[0], now, today).value;
      SplitGroupsCreate(b1, transaction, groups[1..], now, today);
      SplitItemsInTurn(b, b1, SplitGroups(b, transaction, groups, now, today).value, transaction, groups);
    }
  }

  lemma {:induction false} AcceptedRowsInGroups(groups: seq<Group>, row: SplitRow)
    requires AllGroupsAccepted(groups) && RowSchemaAccepts(row)
    ensures AllGroupsAccepted(AddToGroups(groups, row))
    decreases |groups|
  {
    if |groups| > 0 && groups[0].person != row.person {
      AcceptedRowsInGroups(groups[1..], row);
    }
  }

  lemma {:induction false} GroupsAreAccepted(rows: seq<SplitRow>)
    requires AllRowsAccepted(rows)
    ensures AllGroupsAccepted(GroupByPerson(rows))
  {
    if |rows| > 0 {
      GroupsAreAccepted(rows[..|rows| - 1]);
      AcceptedRowsInGroups(GroupByPerson(rows[..|rows| - 1]), rows[|rows| - 1]);
    }
  }

  /** A split keeps the terms of every item there was and adds one item for each person in order of appearance, for the
      sum of that person's rows and linked to the transaction. Every row's payment is recorded: the new item is paid the
      smaller of payment and row for each of the person's paid rows, and any item what the extra allocations name. */
  lemma {:induction false} SplitAddsOneItemPerPerson(b: Books, t: nat, rows: seq<SplitRow>, now: int, today: int)
    requires Inv(b) && SplitTransaction(b, t, rows, now, today).Ok?
    ensures OthersPaid(b, SplitTransaction(b, t, rows, now, today).value, GroupByPerson(rows))
    ensures OneItemEach(b, SplitTransaction(b, t, rows, now, today).value, t, GroupByPerson(rows))
    ensures t in b.transactions
    ensures LinkedOwedTotal(b.items, t, None) + GroupsTotal(GroupByPerson(rows)) <= b.transactions[t].amount
  {
    GroupsHoldEachPersonsRows(rows, "");
    GroupsAreAccepted(rows);
    SplitGroupsCreate(b, t, GroupByPerson(rows), now, today);
  }

  // ---------------------------------------------------------------- deletion with owed items

  /** Deleting a transaction with its owed items detaches exactly the items linked to it, as the strategy says, and
      changes no amount, payment or allocation; it goes through only on what the caller was shown. */
  lemma {:induction false} DeletionDetachesExactlyLinkedItems(b: Books, t: nat, ids: seq<nat>, expected: Version,
                                                              strategy: Strategy, today: int)
    requires Inv(b) && DeleteTransactionWithOwed(b, t, ids, expected, strategy, today).Ok?
    ensures t in b.transactions && expected == VersionOf(b, t)
    ensures forall i: nat :: i in ids <==> i < |b.items| && b.items[i].linked == Some(t)
    ensures var b' := DeleteTransactionWithOwed(b, t, ids, expected, strategy, today).value;
      && b'.transactions == b.transactions - {t} && b'.payments == b.payments && b'.allocations == b.allocations
      && |b'.items| == |b.items|
      && forall i :: 0 <= i < |b.items| ==>
           b'.items[i] == if b.items[i].linked == Some(t) then DetachedItem(b.items[i], strategy, today) else b.items[i]
  {
    var linked := LinkedItems(b, t);
    LinkedItemsAreDetachable(b, t);
    LinkedItemsExist(b, t);
    SoundnessIsClosed(b);
    DetachAllPreserves(x => SoundSince(b, x), b, linked, strategy, today);
    SortKeepsMembers(ids);
    assert forall i: nat :: i in linked <==> i < |b.items| && b.items[i].linked == Some(t);
  }

  lemma {:induction false} SortKeepsMembers(ids: seq<nat>)
    ensures forall i: nat :: i in SortBy(IdOrder(), ids) <==> i in ids
  {
    SortSorts(IdOrder(), ids);
    forall i: nat ensures i in SortBy(IdOrder(), ids) <==> i in ids {
      assert i in ids <==> i in multiset(ids);
      assert i in SortBy(IdOrder(), ids) <==> i in multiset(SortBy(IdOrder(), ids));
    }
  }
}
