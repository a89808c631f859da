/** Which commands leave which items reported by the integrity check. A split writes under several dates, one for each of
    its payments. */
module OwedReports {
  import opened Outcomes
  import opened Ordering
  import opened OwedBooks
  import opened OwedPayments
  import opened OwedCommands
  import opened OwedInvariant
  import opened OwedHistory
  import opened OwedSettlement
  import opened OwedWaterfall
  import opened OwedIntegrity
  import opened OwedIntegrityLaws
  import opened OwedEffects
  import opened OwedCapacity
  import opened OwedCommitments

  // ---------------------------------------------------------------- dates written about an item

  function Greater(a: int, b: int): int {
    if a >= b then a else b
  }

  /** The date of an item's latest event after more have been written under `dates`. */
  function LatestDate(latest: int, dates: seq<int>): int {
    if |dates| == 0 then latest else Greater(LatestDate(latest, dates[..|dates| - 1]), dates[|dates| - 1])
  }

  /** The last date written is before an earlier one. */
  predicate Backdated(latest: int, dates: seq<int>) {
    |dates| > 0 && dates[|dates| - 1] < LatestDate(latest, dates)
  }

  lemma {:induction false} LatestDateOfBoth(latest: int, dates: seq<int>, more: seq<int>)
    ensures LatestDate(latest, dates + more) == LatestDate(LatestDate(latest, dates), more)
  {
    if |more| == 0 {
      assert dates + more == dates;
    } else {
      LatestDateOfBoth(latest, dates, more[..|more| - 1]);
      assert (dates + more)[..|dates + more| - 1] == dates + more[..|more| - 1];
    }
  }

  lemma {:induction false} OneDate(latest: int, date: int)
    ensures LatestDate(latest, [date]) == Greater(latest, date)
  {
    assert [date][..0] == [] && LatestDate(latest, []) == latest;
  }

  /** Visible, and the latest event, which is no deletion, tells of at least what remains. */
  ghost predicate Traced(b: Books, id: nat) {
    && Visible(b, id) && Latest(b.events, id).Some? && !Latest(b.events, id).value.eventType.Deletion?
    && Latest(b.events, id).value.remaining >= b.items[id].remaining
  }

  function DateOfLatest(b: Books, id: nat): int {
    match Latest(b.events, id)
    case None => 0
    case Some(e) => e.date
  }

  /** From `b` to `b'` the item has been paid under these dates and is reported just when the last is backdated. */
  ghost predicate PaidUnder(b: Books, b': Books, id: nat, dates: seq<int>) {
    && Traced(b', id) && id < |b.items| && b'.items[id].person == b.items[id].person
    && DateOfLatest(b', id) == LatestDate(DateOfLatest(b, id), dates)
    && if dates == [] then FindingAt(b', id).Some? <==> FindingAt(b, id).Some?
       else FindingAt(b', id).Some? <==> Backdated(DateOfLatest(b, id), dates)
  }

  lemma {:induction false} PaidInTurn(b: Books, b1: Books, b': Books, id: nat, dates: seq<int>, more: seq<int>)
    requires PaidUnder(b, b1, id, dates) && PaidUnder(b1, b', id, more)
    ensures PaidUnder(b, b', id, dates + more)
  {
    LatestDateOfBoth(DateOfLatest(b, id), dates, more);
    if more == [] { assert dates + more == dates; }
  }

  // ---------------------------------------------------------------- one payment

  /** The events from position `n` on are about these items. */
  ghost predicate AllAbout(events: seq<OwedEvent>, n: nat, ids: set<nat>) {
    forall j :: n <= j < |events| ==> events[j].item in ids
  }

  lemma {:induction false} GrantsAreAbout(b: Books, payment: nat, s: seq<Requested>, left: int, today: int)
    requires payment in b.payments && RequestedExist(b, s) && ApplyRequested(b, payment, s, left, today).Ok?
    ensures AllAbout(ApplyRequested(b, payment, s, left, today).value.events, |b.events|, ItemsAmong(s))
    decreases |s|
  {
    if |s| > 0 {
      var b1 := Allocate(b, payment, s[0].item, s[0].amount, left, today).value;
      GrantsAreAbout(b1, payment, s[1..], left - s[0].amount, today);
      GrantsOnlyAppend(b1, payment, s[1..], left - s[0].amount, today);
      assert forall i :: i in ItemsAmong(s[1..]) ==> i in ItemsAmong(s);
      assert s[0].item in ItemsAmong(s);
    }
  }

  lemma {:induction false} ExplicitPaymentsAreAbout(b: Books, p: PaymentDraft, today: int)
    requires Inv(b) && RecordPayment(b, p, today).Ok? && |p.requested| > 0
    ensures AllAbout(RecordPayment(b, p, today).value.events, |b.events|, ItemsAmong(p.requested))
  {
    var named := Relabelled(b, p.person, today);
    ValidatedItemsExist(named, p.person, p.amount, p.requested);
    GrantsAreAbout(WithPayment(named, p), b.nextPayment, p.requested, p.amount, today);
  }

  /** An explicit payment lowers what remains of exactly the items it requests. */
  lemma {:induction false} ExplicitPaymentsLower(b: Books, p: PaymentDraft, today: int, id: nat)
    requires Inv(b) && RecordPayment(b, p, today).Ok? && |p.requested| > 0 && Visible(b, id)
    ensures var b' := RecordPayment(b, p, today).value;
      && Visible(b', id) && b'.items[id].person == b.items[id].person
      && (id in ItemsAmong(p.requested) ==> b'.items[id].remaining < b.items[id].remaining)
      && (id !in ItemsAmong(p.requested) ==>
            b'.items[id].remaining == b.items[id].remaining && b'.items[id].status == b.items[id].status)
  {
    PaymentSettlesGrants(b, p, today);
    RequestedIsPositive(id, p.requested);
    assert id in ItemsAmong(p.requested) <==> exists k :: 0 <= k < |p.requested| && p.requested[k].item == id;
  }

  /** Written on under one date: what happens to a traced item that is lowered, and to one that is let alone. */
  lemma {:induction false} WritingPays(b: Books, b': Books, id: nat, date: int)
    requires WroteOn(b, b', id, date) && Traced(b, id) && b'.items[id].person == b.items[id].person
    requires b'.items[id].remaining < b.items[id].remaining
    ensures PaidUnder(b, b', id, [date])
  {
    LatestAfterWriting(b.events, b'.events, id, date);
    if !WrittenSince(b.events, b'.events, id) { NothingWritten(b.events, b'.events, id); }
    var m := WrittenLast(b'.events, id);
    assert m >= |b.events| && b'.events[m].date == date;
    OneDate(DateOfLatest(b, id), date);
  }

  lemma {:induction false} NotWritingKeeps(b: Books, b': Books, id: nat, date: int)
    requires WroteOn(b, b', id, date) && Traced(b, id) && b'.items[id].person == b.items[id].person
    requires !WrittenSince(b.events, b'.events, id)
    requires b'.items[id].remaining == b.items[id].remaining && b'.items[id].status == b.items[id].status
    ensures PaidUnder(b, b', id, [])
  {
    LatestAfterWriting(b.events, b'.events, id, date);
  }

  lemma {:induction false} PaymentPays(b: Books, p: PaymentDraft, today: int, id: nat)
    requires Inv(b) && RecordPayment(b, p, today).Ok? && |p.requested| > 0 && Traced(b, id)
    ensures PaidUnder(b, RecordPayment(b, p, today).value, id, if id in ItemsAmong(p.requested) then [p.date] else [])
  {
    var b' := RecordPayment(b, p, today).value;
    PaymentsWriteOn(b, p, today, id);
    ExplicitPaymentsLower(b, p, today, id);
    ExplicitPaymentsAreAbout(b, p, today);
    if id in ItemsAmong(p.requested) {
      WritingPays(b, b', id, p.date);
    } else {
      NotWritingKeeps(b, b', id, p.date);
    }
  }

  // ---------------------------------------------------------------- one person's rows

  /** The dates of the rows' payments that reach an item: all of them if it is the rows' own, and else those whose extra
      allocations name it. */
  function DatesOn(rows: seq<SplitRow>, own: bool, id: nat): seq<int> {
    if |rows| == 0 then []
    else
      (if rows[0].payment.Some? && (own || id in ExtrasOf(rows[0])) then [rows[0].payment.value.date] else [])
      + DatesOn(rows[1..], own, id)
  }

  lemma {:induction false} OneRowPays(b: Books, person: string, own: nat, row: SplitRow, today: int, id: nat)
    requires Inv(b) && row.payment.Some? && RowSchemaAccepts(row) && Traced(b, id)
    requires RecordPayment(b, RowPayment(person, row.payment.value, own, OwnPart(row)), today).Ok?
    ensures PaidUnder(b, RecordPayment(b, RowPayment(person, row.payment.value, own, OwnPart(row)), today).value, id,
                      DatesOn([row], id == own, id))
  {
    var p := RowPayment(person, row.payment.value, own, OwnPart(row));
    RequestNamesOwnAndExtras(person, own, row);
    PaymentPays(b, p, today, id);
    assert [row][1..] == [];
  }

  lemma {:induction false} DatesFromFront(rows: seq<SplitRow>, own: bool, id: nat)
    requires |rows| > 0
    ensures DatesOn(rows, own, id) == DatesOn([rows[0]], own, id) + DatesOn(rows[1..], own, id)
    ensures rows[0].payment.None? ==> DatesOn(rows, own, id) == DatesOn(rows[1..], own, id)
  {
    assert [rows[0]][1..] == [];
  }

  lemma {:induction false} NothingPays(b: Books, id: nat)
    requires Traced(b, id)
    ensures PaidUnder(b, b, id, [])
  {
  }

  lemma {:induction false} FirstRowPays(b: Books, person: string, own: nat, row: SplitRow, left: int, today: int, id: nat)
    requires Inv(b) && own < |b.items| && Traced(b, id)
    requires RowSchemaAccepts(row) && left >= row.amount && RowStep(b, person, own, row, left, today).Ok?
    ensures PaidUnder(b, RowStep(b, person, own, row, left, today).value.0, id, DatesOn([row], id == own, id))
  {
    if row.payment.None? {
      assert [row][1..] == [];
      NothingPays(b, id);
    } else {
      RowIsStillOwed(row, left);
      OneRowPays(b, person, own, row, today, id);
    }
  }

  lemma {:induction false} RowsPay(b: Books, person: string, own: nat, rows: seq<SplitRow>, left: int, today: int, id: nat)
    requires Inv(b) && own < |b.items| && b.items[own].person == person && Traced(b, id)
    requires AllRowsAccepted(rows) && left >= RowsTotal(rows)
    requires PaySplitRows(b, person, own, rows, left, today).Ok?
    ensures PaidUnder(b, PaySplitRows(b, person, own, rows, left, today).value, id, DatesOn(rows, id == own, id))
    decreases |rows|
  {
    if |rows| == 0 {
      NothingPays(b, id);
    } else {
      var b1, rest := FirstRowGives(b, person, own, rows, left, today);
      RowsFromFront(rows);
      FirstRowPays(b, person, own, rows[0], left, today, id);
      RowsPay(b1, person, own, rows[1..], rest, today, id);
      DatesFromFront(rows, id == own, id);
      PaidInTurn(b, b1, PaySplitRows(b, person, own, rows, left, today).value, id, DatesOn([rows[0]], id == own, id),
                 DatesOn(rows[1..], id == own, id));
    }
  }

  // ---------------------------------------------------------------- groups

  lemma {:induction false} CreatingTraces(b: Books, d: ItemDraft, now: int, today: int)
    requires Inv(b) && CreateItem(b, d, now, today).Ok? && d.linked.Some?
    ensures var b' := CreateItem(b, d, now, today).value;
      && d.linked.value in b.transactions && Inv(b') && Traced(b', |b.items|) && FindingAt(b', |b.items|).None?
      && DateOfLatest(b', |b.items|) == b.transactions[d.linked.value].date
  {
    var b' := CreateItem(b, d, now, today).value;
    StepKeeps(b, Op(Create(d), now, today));
    assert IsLatest(b'.events, |b.items|, |b.events|) by {
      forall j | 0 <= j < |b.events| ensures b'.events[j].item != |b.items| { assert b.events[j].item < |b.items|; }
    }
    TheLatest(b'.events, |b.items|, |b.events|);
  }

  lemma {:induction false} CreatingKeepsOthers(b: Books, d: ItemDraft, now: int, today: int, id: nat)
    requires Inv(b) && CreateItem(b, d, now, today).Ok? && Traced(b, id)
    ensures PaidUnder(b, CreateItem(b, d, now, today).value, id, [])
  {
    var b' := CreateItem(b, d, now, today).value;
    StepKeeps(b, Op(Create(d), now, today));
    assert LogMirrors(b, id) && LogMirrors(b', id);
    NotWritingKeeps(b, b', id, 0);
  }

  lemma {:induction false} NamedIsGiven(rows: seq<SplitRow>, own: nat, id: nat)
    requires AllRowsAccepted(rows) && id != own
    ensures GivenByRows(id, own, rows) >= 0
    ensures GivenByRows(id, own, rows) == 0 ==> DatesOn(rows, false, id) == []
    decreases |rows|
  {
    if |rows| > 0 {
      NamedIsGiven(rows[1..], own, id);
      if rows[0].payment.Some? {
        RequestedIsPositive(id, rows[0].payment.value.extra);
      }
    }
  }

  /** A group's rows pay an item there was under the dates that name it, which a stranger's rows never do. */
  lemma {:induction false} GroupPaysOthers(b: Books, t: nat, g: Group, now: int, today: int, id: nat)
    requires Inv(b) && AllRowsAccepted(g.rows) && AfterGroup(b, t, g, now, today).Ok? && Traced(b, id)
    ensures PaidUnder(b, AfterGroup(b, t, g, now, today).value, id, DatesOn(g.rows, false, id))
    ensures b.items[id].person != g.person ==> DatesOn(g.rows, false, id) == []
  {
    var created := CreateItem(b, GroupDraft(g, t), now, today).value;
    ItemIsCreated(b, g, t, now, today);
    CreatingKeepsOthers(b, GroupDraft(g, t), now, today, id);
    RowsPay(created, g.person, |b.items|, g.rows, RowsTotal(g.rows), today, id);
    PaidInTurn(b, created, AfterGroup(b, t, g, now, today).value, id, [], DatesOn(g.rows, false, id));
    assert [] + DatesOn(g.rows, false, id) == DatesOn(g.rows, false, id);
    RowPaymentsGive(created, g.person, |b.items|, g.rows, RowsTotal(g.rows), today);
    NamedIsGiven(g.rows, |b.items|, id);
  }

  lemma {:induction false} GroupPaysOwn(b: Books, t: nat, g: Group, now: int, today: int)
    requires Inv(b) && AllRowsAccepted(g.rows) && AfterGroup(b, t, g, now, today).Ok?
    ensures t in b.transactions
    ensures var b' := AfterGroup(b, t, g, now, today).value;
      && Traced(b', |b.items|) && b'.items[|b.items|].person == g.person
      && DateOfLatest(b', |b.items|) == LatestDate(b.transactions[t].date, DatesOn(g.rows, true, |b.items|))
      && (FindingAt(b', |b.items|).Some? <==> Backdated(b.transactions[t].date, DatesOn(g.rows, true, |b.items|)))
  {
    ItemIsCreated(b, g, t, now, today);
    CreatingTraces(b, GroupDraft(g, t), now, today);
    RowsPay(CreateItem(b, GroupDraft(g, t), now, today).value, g.person, |b.items|, g.rows, RowsTotal(g.rows), today,
            |b.items|);
  }

  lemma {:induction false} NoRowsFor(groups: seq<Group>, person: string)
    requires person !in PeopleOf(groups)
    ensures RowsFor(groups, person) == []
  {
    if |groups| > 0 {
      NoRowsFor(groups[1..], person);
    }
  }

  /** The groups of a split pay an item there was under the dates of its own person's rows that name it. */
  lemma {:induction false} GroupsPayOthers(b: Books, t: nat, groups: seq<Group>, now: int, today: int, id: nat)
    requires Inv(b) && AllGroupsAccepted(groups) && PeopleDiffer(groups) && Traced(b, id)
    requires SplitGroups(b, t, groups, now, today).Ok?
    ensures PaidUnder(b, SplitGroups(b, t, groups, now, today).value, id,
                      DatesOn(RowsFor(groups, b.items[id].person), false, id))
    decreases |groups|
  {
    if |groups| > 0 {
      var person, g := b.items[id].person, groups[0];
      var b1 := AfterGroup(b, t, g, now, today).value;
      GroupPaysOthers(b, t, g, now, today, id);
      OneGroupSplit(b, t, g, now, today);
      GroupsPayOthers(b1, t, groups[1..], now, today, id);
      var here, rest := DatesOn(g.rows, false, id), DatesOn(RowsFor(groups[1..], person), false, id);
      PaidInTurn(b, b1, SplitGroups(b, t, groups, now, today).value, id, here, rest);
      if g.person == person {
        NoRowsFor(groups[1..], person);
        assert here + rest == here;
      } else {
        assert here + rest == rest;
      }
    }
  }

  /** A split's new item is reported exactly when its own rows are backdated, from this date on. */
  ghost predicate NewItemReports(b: Books, id: nat, date: int, rows: seq<SplitRow>) {
    FindingAt(b, id).Some? <==> Backdated(date, DatesOn(rows, true, id))
  }

  /** The item of a group is reported by the dates of its own rows, and no later group's rows touch it. */
  lemma {:induction false} FirstGroupPaysOwn(b: Books, t: nat, groups: seq<Group>, now: int, today: int)
    requires Inv(b) && AllGroupsAccepted(groups) && PeopleDiffer(groups) && |groups| > 0
    requires SplitGroups(b, t, groups, now, today).Ok?
    ensures t in b.transactions
    ensures NewItemReports(SplitGroups(b, t, groups, now, today).value, |b.items|, b.transactions[t].date, groups[0].rows)
  {
    var g := groups[0];
    var b1 := AfterGroup(b, t, g, now, today).value;
    GroupPaysOwn(b, t, g, now, today);
    OneGroupSplit(b, t, g, now, today);
    GroupsPayOthers(b1, t, groups[1..], now, today, |b.items|);
    NoRowsFor(groups[1..], g.person);
  }

  lemma {:induction false} GroupKeepsTransactions(b: Books, t: nat, g: Group, now: int, today: int)
    requires Inv(b) && AfterGroup(b, t, g, now, today).Ok?
    ensures AfterGroup(b, t, g, now, today).value.transactions == b.transactions
  {
    assert [g][1..] == [];
    assert SplitGroups(b, t, [g], now, today) == SplitGroups(AfterGroup(b, t, g, now, today).value, t, [], now, today);
    SplitKeepsTransactions(b, t, [g], now, today);
  }

  lemma {:induction false} NextGroup(b: Books, t: nat, groups: seq<Group>, now: int, today: int) returns (b1: Books)
    requires Inv(b) && AllGroupsAccepted(groups) && PeopleDiffer(groups) && |groups| > 0
    requires SplitGroups(b, t, groups, now, today).Ok?
    ensures SplitGroups(b, t, groups, now, today) == SplitGroups(b1, t, groups[1..], now, today)
    ensures Inv(b1) && AllGroupsAccepted(groups[1..]) && PeopleDiffer(groups[1..])
    ensures |b1.items| == |b.items| + 1 && b1.transactions == b.transactions
  {
    b1 := AfterGroup(b, t, groups[0], now, today).value;
    OneGroupSplit(b, t, groups[0], now, today);
    GroupKeepsTransactions(b, t, groups[0], now, today);
  }

  /** The items that a split's groups add are reported by the dates of their own rows. */
  lemma {:induction false} GroupsPayOwn(b: Books, t: nat, groups: seq<Group>, now: int, today: int, k: nat)
    requires Inv(b) && AllGroupsAccepted(groups) && PeopleDiffer(groups) && k < |groups|
    requires SplitGroups(b, t, groups, now, today).Ok?
    ensures t in b.transactions
    ensures NewItemReports(SplitGroups(b, t, groups, now, today).value, |b.items| + k, b.transactions[t].date,
                           groups[k].rows)
    decreases |groups|
  {
    if k == 0 {
      FirstGroupPaysOwn(b, t, groups, now, today);
    } else {
      var b1 := NextGroup(b, t, groups, now, today);
      GroupsPayOwn(b1, t, groups[1..], now, today, k - 1);
      assert |b1.items| + (k - 1) == |b.items| + k && groups[1..][k - 1] == groups[k];
    }
  }

  // ---------------------------------------------------------------- the whole split

  /** A split leaves an item there was reported, if it was not, exactly when its person's rows name it and the last of
      them to do so is dated before another or before the item's latest event. */
  lemma {:induction false} SplitsReportWhenBackdated(b: Books, t: nat, rows: seq<SplitRow>, now: int, today: int, id: nat)
    requires Inv(b) && SplitTransaction(b, t, rows, now, today).Ok? && Visible(b, id) && FindingAt(b, id).None?
    ensures Latest(b.events, id).Some?
    ensures FindingAt(SplitTransaction(b, t, rows, now, today).value, id).Some? <==>
      Backdated(Latest(b.events, id).value.date, DatesOn(Keep(RowOf(b.items[id].person), rows), false, id))
  {
    GroupsHoldEachPersonsRows(rows, b.items[id].person);
    GroupsAreAccepted(rows);
    GroupsPayOthers(b, t, GroupByPerson(rows), now, today, id);
  }

  /** A split leaves a new item reported exactly when the last of its paid rows is dated before another of them or before
      the transaction. */
  lemma {:induction false} SplitsReportNewItems(b: Books, t: nat, rows: seq<SplitRow>, now: int, today: int, k: nat)
    requires Inv(b) && SplitTransaction(b, t, rows, now, today).Ok? && k < |GroupByPerson(rows)|
    ensures t in b.transactions
    ensures FindingAt(SplitTransaction(b, t, rows, now, today).value, |b.items| + k).Some? <==>
      Backdated(b.transactions[t].date, DatesOn(GroupByPerson(rows)[k].rows, true, |b.items| + k))
  {
    GroupsHoldEachPersonsRows(rows, "");
    GroupsAreAccepted(rows);
    GroupsPayOwn(b, t, GroupByPerson(rows), now, today, k);
  }

  // ---------------------------------------------------------------- every command

  /** A command that does not move what remains of an item or its status, and writes about it under one date only, does
      not make it reported. */
  lemma {:induction false} UnmovedStaysClean(b: Books, op: Op, id: nat, date: int)
    requires Inv(b) && Visible(b, id) && Visible(After(b, op), id) && FindingAt(b, id).None?
    requires DatedFrom(After(b, op).events, |b.events|, id, date)
    requires !Restates(b.items[id], After(b, op).items[id])
    ensures FindingAt(After(b, op), id).None?
  {
    StepKeeps(b, op);
    assert LogMirrors(b, id) && LogMirrors(After(b, op), id);
    ReportedWhenBackdated(b, After(b, op), id, date);
  }

  lemma {:induction false} CreatedOnlyAppends(b: Books, drafts: seq<ItemDraft>, linked: nat, now: int, today: int)
    requires CreateItems(b, drafts, linked, now, today).Ok?
    ensures var b' := CreateItems(b, drafts, linked, now, today).value;
      && b.items <= b'.items && b.events <= b'.events
      && forall j :: |b.events| <= j < |b'.events| ==> b'.events[j].item >= |b.items|
    decreases |drafts|
  {
    if |drafts| > 0 {
      var b1 := CreateItem(b, drafts[0].(linked := Some(linked)), now, today).value;
      CreatedOnlyAppends(b1, drafts[1..], linked, now, today);
    }
  }

  lemma {:induction false} DetachedToday(b: Books, ids: seq<nat>, strategy: Strategy, today: int)
    requires AllExist(b, ids) && DetachAll(b, ids, strategy, today).Ok?
    ensures var b' := DetachAll(b, ids, strategy, today).value;
      b.events <= b'.events && AllDatedFrom(b'.events, |b.events|, today)
    decreases |ids|
  {
    if |ids| > 0 {
      DetachedToday(DetachOne(b, ids[0], strategy, today).value, ids[1..], strategy, today);
    }
  }

  lemma {:induction false} DetachingStaysClean(b: Books, op: Op, id: nat)
    requires Inv(b) && op.command.DeleteWithOwed? && Step(b, op).Ok?
    requires Visible(b, id) && Visible(After(b, op), id) && FindingAt(b, id).None?
    ensures FindingAt(After(b, op), id).None?
  {
    var c := op.command;
    DeletionDetachesExactlyLinkedItems(b, c.transaction, c.expectedIds, c.expected, c.strategy, op.today);
    LinkedItemsExist(b, c.transaction);
    DetachedToday(b, LinkedItems(b, c.transaction), c.strategy, op.today);
    UnmovedStaysClean(b, op, id, op.today);
  }

  lemma {:induction false} CreatingWithItsItemsStaysClean(b: Books, op: Op, id: nat)
    requires Inv(b) && op.command.CreateWithOwed? && op.command.received.None? && Step(b, op).Ok?
    requires Visible(b, id) && FindingAt(b, id).None?
    ensures FindingAt(After(b, op), id).None?
  {
    var c := op.command;
    CreatedOnlyAppends(b.(transactions := b.transactions[c.transaction := c.row]), c.drafts, c.transaction, op.now, op.today);
    UnmovedStaysClean(b, op, id, 0);
  }

  /** What a payment gives to whom does not depend on transactions or on the payment's link. */
  lemma {:induction false} GrantsIgnoreLinks(b: Books, b': Books, p: PaymentDraft, linked: nat)
    requires b'.items == b.items
    ensures GrantsOf(b', p.(linked := Some(linked))) == GrantsOf(b, p)
  {
  }

  lemma {:induction false} ReceivingReports(b: Books, saved: Books, t: nat, row: Transaction, p: PaymentDraft, now: int,
                                            today: int, id: nat)
    requires Inv(b) && saved == b.(transactions := b.transactions[t := row]) && Visible(b, id) && FindingAt(b, id).None?
    requires RecordPayment(saved, p.(linked := Some(t)), today).Ok?
    ensures FindingAt(RecordPayment(saved, p.(linked := Some(t)), today).value, id).Some? <==>
      id in ItemsAmong(GrantsOf(b, p)) && p.date < DateOfLatest(b, id)
  {
    StepKeeps(b, Op(SaveTransaction(t, row), now, today));
    GrantsIgnoreLinks(b, saved, p, t);
    PaymentsReportWhenBackdated(saved, p.(linked := Some(t)), today, id);
  }

  lemma {:induction false} CombiningReports(b: Books, op: Op, id: nat)
    requires Inv(b) && op.command.CreateWithOwed? && Step(b, op).Ok? && Visible(b, id) && FindingAt(b, id).None?
    ensures FindingAt(After(b, op), id).Some? <==>
      && op.command.received.Some? && id in ItemsAmong(GrantsOf(b, op.command.received.value))
      && op.command.received.value.date < DateOfLatest(b, id)
  {
    var c := op.command;
    if c.received.None? {
      CreatingWithItsItemsStaysClean(b, op, id);
    } else {
      var saved := b.(transactions := b.transactions[c.transaction := c.row]);
      ReceivingReports(b, saved, c.transaction, c.row, c.received.value, op.now, op.today, id);
    }
  }

  /** The command writes about the item, under a date before that of the item's latest event or of what it wrote itself,
      and moves what remains or the status; told from before the command. */
  ghost predicate WritesBehind(b: Books, op: Op, id: nat)
    requires Visible(b, id)
  {
    var latest := DateOfLatest(b, id);
    match op.command
    case Update(updated, p) =>
      && id == updated && op.today < latest
      && (PatchedRemaining(b.items[id], p) != b.items[id].remaining || PatchedStatus(b.items[id], p) != b.items[id].status)
    case Pay(p) => id in ItemsAmong(GrantsOf(b, p)) && p.date < latest
    case Reverse(payment) => id in ItemsPaidBy(b, payment) && op.today < latest
    case Split(_, rows) => Backdated(latest, DatesOn(Keep(RowOf(b.items[id].person), rows), false, id))
    case CreateWithOwed(_, _, _, received) =>
      received.Some? && id in ItemsAmong(GrantsOf(b, received.value)) && received.value.date < latest
    case _ => false
  }

  /** These commands write about no item that stays visible but a new one. */
  predicate WritesElsewhere(c: Command) {
    c.Create? || c.Delete? || c.SaveTransaction? || c.DeleteTransaction?
  }

  lemma {:induction false} WritingElsewhere(b: Books, op: Op, id: nat)
    requires WritesElsewhere(op.command) && Step(b, op).Ok? && Visible(b, id) && Visible(After(b, op), id)
    ensures DatedFrom(After(b, op).events, |b.events|, id, 0) && !Restates(b.items[id], After(b, op).items[id])
  {
  }

  /** A command makes an item reported that stays visible and was not reported exactly when it writes behind the item's
      latest event. */
  lemma {:induction false} ReportedExactlyWhenBehind(b: Books, op: Op, id: nat)
    requires Inv(b) && Step(b, op).Ok? && Visible(b, id) && Visible(After(b, op), id) && FindingAt(b, id).None?
    ensures FindingAt(After(b, op), id).Some? <==> WritesBehind(b, op, id)
  {
    if WritesElsewhere(op.command) {
      WritingElsewhere(b, op, id);
      UnmovedStaysClean(b, op, id, 0);
    } else {
      match op.command
      case Update(updated, p) => UpdatesReportWhenBackdated(b, updated, p, op.today, id);
      case Pay(p) => PaymentsReportWhenBackdated(b, p, op.today, id);
      case Reverse(payment) => ReversalsReportWhenBackdated(b, payment, op.today, id);
      case Split(t, rows) => SplitsReportWhenBackdated(b, t, rows, op.now, op.today, id);
      case CreateWithOwed(_, _, _, _) => CombiningReports(b, op, id);
      case DeleteWithOwed(_, _, _, _) => DetachingStaysClean(b, op, id);
    }
  }
}
