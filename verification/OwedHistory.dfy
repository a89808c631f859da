/** Runs of owed commands, and what holds of every one of them. */
module OwedHistory {
  import opened Outcomes
  import opened Ordering
  import opened OwedBooks
  import opened OwedPayments
  import opened OwedCommands
  import opened OwedInvariant
  import opened OwedMoves
  import opened OwedRuns

  datatype Command =
    | Create(draft: ItemDraft)
    | Update(id: nat, patch: ItemPatch)
    | Delete(id: nat)
    | Pay(payment: PaymentDraft)
    | Reverse(paymentId: nat)
    | Split(transaction: nat, rows: seq<SplitRow>)
    | CreateWithOwed(transaction: nat, row: Transaction, drafts: seq<ItemDraft>, received: Option<PaymentDraft>)
    | DeleteWithOwed(transaction: nat, expectedIds: seq<nat>, expected: Version, strategy: Strategy)
    | SaveTransaction(transaction: nat, row: Transaction)
    | DeleteTransaction(transaction: nat)

  /** A command and the clock it reads. */
  datatype Op = Op(command: Command, now: int, today: int)

  function RemoveTransaction(b: Books, transaction: nat): Result<Books> {
    if transaction !in b.transactions then Refused(NOT_FOUND)
    else if LinkedItems(b, transaction) != [] || HasLinkedPayments(b, transaction) then Refused(CONFLICT)
    else Ok(b.(transactions := b.transactions - {transaction}))
  }

  function Step(b: Books, op: Op): Result<Books> {
    match op.command
    case Create(d) => CreateItem(b, d, op.now, op.today)
    case Update(id, p) => UpdateItem(b, id, p, op.today)
    case Delete(id) => DeleteItem(b, id, op.today)
    case Pay(p) => RecordPayment(b, p, op.today)
    case Reverse(id) => DeletePayment(b, id, op.today)
    case Split(t, rows) => SplitTransaction(b, t, rows, op.now, op.today)
    case CreateWithOwed(id, t, drafts, p) => CreateTransactionWithOwed(b, id, t, drafts, p, op.now, op.today)
    case DeleteWithOwed(t, ids, v, s) => DeleteTransactionWithOwed(b, t, ids, v, s, op.today)
    case SaveTransaction(id, row) => Ok(b.(transactions := b.transactions[id := row]))
    case DeleteTransaction(id) => RemoveTransaction(b, id)
  }

  /** A refused command is rolled back. */
  function After(b: Books, op: Op): Books {
    match Step(b, op)
    case Ok(b') => b'
    case Refused(_) => b
  }

  function Run(b: Books, ops: seq<Op>): Books {
    if |ops| == 0 then b else After(Run(b, ops[..|ops| - 1]), ops[|ops| - 1])
  }

  // ---------------------------------------------------------------- composite commands

  /** A closed property that also gives the invariant. */
  ghost predicate Guards(inv: Books -> bool) {
    Closed(inv) && forall b :: inv(b) ==> Inv(b)
  }

  lemma {:induction false} GuardedRecord(inv: Books -> bool, b: Books, p: PaymentDraft, today: int)
    requires Guards(inv) && inv(b) && RecordPayment(b, p, today).Ok?
    ensures inv(RecordPayment(b, p, today).value)
  {
    assert Inv(b);
    RecordPreserves(inv, b, p, today);
  }

  lemma {:induction false} RowPreserves(inv: Books -> bool, b: Books, person: string, id: nat, row: SplitRow, left: int,
                                        today: int)
    requires Guards(inv) && inv(b) && RowStep(b, person, id, row, left, today).Ok?
    ensures inv(RowStep(b, person, id, row, left, today).value.0)
  {
    if row.payment.Some? && left > 0 {
      var p := row.payment.value;
      GuardedRecord(inv, b, RowPayment(person, p, id, Least(Least(p.amount, row.amount), left)), today);
    }
  }

  lemma {:induction false} SplitRowsPreserve(inv: Books -> bool, b: Books, person: string, id: nat, rows: seq<SplitRow>,
                                             left: int, today: int)
    requires Guards(inv) && inv(b) && PaySplitRows(b, person, id, rows, left, today).Ok?
    ensures inv(PaySplitRows(b, person, id, rows, left, today).value)
    decreases |rows|
  {
    if |rows| > 0 {
      RowPreserves(inv, b, person, id, rows[0], left, today);
      var (b', rest) := RowStep(b, person, id, rows[0], left, today).value;
      SplitRowsPreserve(inv, b', person, id, rows[1..], rest, today);
    }
  }

  lemma {:induction false} SplitGroupsPreserve(inv: Books -> bool, b: Books, transaction: nat, groups: seq<Group>,
                                               now: int, today: int)
    requires Guards(inv) && inv(b) && SplitGroups(b, transaction, groups, now, today).Ok?
    ensures inv(SplitGroups(b, transaction, groups, now, today).value)
    decreases |groups|
  {
    if |groups| > 0 {
      var g, total := groups[0], RowsTotal(groups[0].rows);
      var draft := ItemDraft(g.person, total, 0, None, Some(transaction), "manual", None);
      CreatePreserves(inv, b, draft, now, today);
      var created := CreateItem(b, draft, now, today).value;
      SplitRowsPreserve(inv, created, g.person, |b.items|, g.rows, total, today);
      var paid := PaySplitRows(created, g.person, |b.items|, g.rows, total, today).value;
      SplitGroupsPreserve(inv, paid, transaction, groups[1..], now, today);
    }
  }

  lemma {:induction false} CreateItemsPreserve(inv: Books -> bool, b: Books, drafts: seq<ItemDraft>, linked: nat,
                                               now: int, today: int)
    requires Closed(inv) && inv(b) && CreateItems(b, drafts, linked, now, today).Ok?
    ensures inv(CreateItems(b, drafts, linked, now, today).value)
    decreases |drafts|
  {
    if |drafts| > 0 {
      var d := drafts[0].(linked := Some(linked));
      CreatePreserves(inv, b, d, now, today);
      CreateItemsPreserve(inv, CreateItem(b, d, now, today).value, drafts[1..], linked, now, today);
    }
  }

  lemma {:induction false} CreateWithOwedPreserves(inv: Books -> bool, b: Books, id: nat, t: Transaction,
                                                   drafts: seq<ItemDraft>, p: Option<PaymentDraft>, now: int, today: int)
    requires Guards(inv) && inv(b) && CreateTransactionWithOwed(b, id, t, drafts, p, now, today).Ok?
    ensures inv(CreateTransactionWithOwed(b, id, t, drafts, p, now, today).value)
  {
    var saved := b.(transactions := b.transactions[id := t]);
    assert inv(Play(b, PutTransaction(id, t)));
    CreateItemsPreserve(inv, saved, drafts, id, now, today);
    if p.Some? {
      var b' := CreateItems(saved, drafts, id, now, today).value;
      GuardedRecord(inv, b', p.value.(linked := Some(id)), today);
    }
  }

  // ---------------------------------------------------------------- deletion with owed items

  ghost predicate Detachable(b: Books, ids: seq<nat>) {
    && AllVisible(b, ids)
    && forall j, k :: 0 <= j < k < |ids| ==> ids[j] != ids[k]
  }

  /** An item after its transaction is gone: unlinked, and deleted or handed over. */
  function DetachedItem(item: Item, strategy: Strategy, today: int): Item {
    var free := item.(linked := None, dedupe := None, updatedOn := today);
    match strategy
    case DeleteWithOwed => free.(deleted := true)
    case PreserveOwed(person) => free.(person := person)
  }

  /** The listed items are detached and nothing else changes but the log. */
  ghost predicate Detached(b: Books, b': Books, ids: seq<nat>, strategy: Strategy, today: int) {
    && b'.payments == b.payments && b'.allocations == b.allocations && b'.transactions == b.transactions
    && |b'.items| == |b.items|
    && (forall i :: 0 <= i < |b.items| ==>
         b'.items[i] == if i in ids then DetachedItem(b.items[i], strategy, today) else b.items[i])
  }

  lemma {:induction false} DetachOnePreserves(inv: Books -> bool, b: Books, ids: seq<nat>, strategy: Strategy, today: int)
    requires Guards(inv) && inv(b) && |ids| > 0 && Detachable(b, ids) && DetachOne(b, ids[0], strategy, today).Ok?
    ensures var b' := DetachOne(b, ids[0], strategy, today).value;
      inv(b') && Detachable(b', ids[1..]) && Detached(b, b', [ids[0]], strategy, today)
  {
    var id, b' := ids[0], DetachOne(b, ids[0], strategy, today).value;
    assert Visible(b, id) && Inv(b);
    var eventType := if strategy.DeleteWithOwed? then Deletion else Adjusted;
    assert Enabled(b, Repost(id, b'.items[id], eventType, today));
    assert inv(Play(b, Repost(id, b'.items[id], eventType, today)));
    forall k | 0 <= k < |ids[1..]| ensures Visible(b', ids[1..][k]) {
      assert ids[1..][k] == ids[k + 1] && Visible(b, ids[k + 1]);
    }
  }

  lemma {:induction false} DetachedInTurn(a: Books, b: Books, c: Books, ids: seq<nat>, strategy: Strategy, today: int)
    requires |ids| > 0 && ids[0] !in ids[1..]
    requires Detached(a, b, [ids[0]], strategy, today) && Detached(b, c, ids[1..], strategy, today)
    ensures Detached(a, c, ids, strategy, today)
  {
  }

  lemma {:induction false} DetachAllPreserves(inv: Books -> bool, b: Books, ids: seq<nat>, strategy: Strategy, today: int)
    requires Guards(inv) && inv(b) && Detachable(b, ids) && AllExist(b, ids) && DetachAll(b, ids, strategy, today).Ok?
    ensures var b' := DetachAll(b, ids, strategy, today).value; inv(b') && Detached(b, b', ids, strategy, today)
    decreases |ids|
  {
    if |ids| > 0 {
      var b1 := DetachOne(b, ids[0], strategy, today).value;
      DetachOnePreserves(inv, b, ids, strategy, today);
      DetachAllPreserves(inv, b1, ids[1..], strategy, today);
      DetachedInTurn(b, b1, DetachAll(b1, ids[1..], strategy, today).value, ids, strategy, today);
    }
  }

  lemma {:induction false} KeptAreDistinct(p: nat -> bool, s: seq<nat>)
    requires forall j, k :: 0 <= j < k < |s| ==> s[j] != s[k]
    ensures forall j, k :: 0 <= j < k < |Keep(p, s)| ==> Keep(p, s)[j] != Keep(p, s)[k]
  {
    if |s| > 0 {
      var init := s[..|s| - 1];
      KeptAreDistinct(p, init);
      KeepMembers(p, init);
      forall k | 0 <= k < |Keep(p, init)| ensures Keep(p, init)[k] != s[|s| - 1] {
        assert Keep(p, init)[k] in init;
      }
    }
  }

  /** The items of a transaction that is about to be deleted: all visible, listed once, and all of them. */
  lemma {:induction false} LinkedItemsAreDetachable(b: Books, transaction: nat)
    requires !AnyDeleted(b, LinkedItems(b, transaction))
    ensures Detachable(b, LinkedItems(b, transaction)) && AllExist(b, LinkedItems(b, transaction))
    ensures forall i :: 0 <= i < |b.items| && i !in LinkedItems(b, transaction) ==> b.items[i].linked != Some(transaction)
  {
    LinkedItemsExist(b, transaction);
    KeptAreDistinct(LinkedTo(b.items, transaction), Ids(|b.items|));
    KeepMembers(LinkedTo(b.items, transaction), Ids(|b.items|));
    forall i | 0 <= i < |b.items| && i !in LinkedItems(b, transaction) ensures b.items[i].linked != Some(transaction) {
      assert Ids(|b.items|)[i] == i;
    }
  }

  lemma {:induction false} DeleteWithOwedPreserves(inv: Books -> bool, b: Books, transaction: nat, ids: seq<nat>,
                                                   expected: Version, strategy: Strategy, today: int)
    requires Guards(inv) && inv(b) && DeleteTransactionWithOwed(b, transaction, ids, expected, strategy, today).Ok?
    ensures inv(DeleteTransactionWithOwed(b, transaction, ids, expected, strategy, today).value)
  {
    var linked := LinkedItems(b, transaction);
    LinkedItemsAreDetachable(b, transaction);
    DetachAllPreserves(inv, b, linked, strategy, today);
    var b1 := DetachAll(b, linked, strategy, today).value;
    assert TransactionIsUnused(b1, transaction);
    assert inv(Play(b1, DropTransaction(transaction)));
  }

  lemma {:induction false} DeleteTransactionPreserves(inv: Books -> bool, b: Books, transaction: nat)
    requires Closed(inv) && inv(b) && RemoveTransaction(b, transaction).Ok?
    ensures inv(RemoveTransaction(b, transaction).value)
  {
    LinkedItemsAreDetachable(b, transaction);
    assert TransactionIsUnused(b, transaction);
    assert inv(Play(b, DropTransaction(transaction)));
  }

  // ---------------------------------------------------------------- every command

  /** Every command but an update preserves whatever the moves preserve. */
  lemma {:induction false} StepPreserves(inv: Books -> bool, b: Books, op: Op)
    requires Guards(inv) && inv(b) && !op.command.Update? && Step(b, op).Ok?
    ensures inv(Step(b, op).value)
  {
    assert Inv(b);
    match op.command
    case Create(d) => CreatePreserves(inv, b, d, op.now, op.today);
    case Delete(id) => DeletePreserves(inv, b, id, op.today);
    case Pay(p) => RecordPreserves(inv, b, p, op.today);
    case Reverse(id) => DeletePaymentPreserves(inv, b, id, op.today);
    case Split(t, rows) => SplitGroupsPreserve(inv, b, t, GroupByPerson(rows), op.now, op.today);
    case CreateWithOwed(id, t, drafts, p) => CreateWithOwedPreserves(inv, b, id, t, drafts, p, op.now, op.today);
    case DeleteWithOwed(t, ids, v, s) => DeleteWithOwedPreserves(inv, b, t, ids, v, s, op.today);
    case SaveTransaction(id, row) => assert inv(Play(b, PutTransaction(id, row)));
    case DeleteTransaction(id) => DeleteTransactionPreserves(inv, b, id);
  }

  /** The only item whose baseline a command may move. */
  function EditedBy(op: Op): Option<nat> {
    if op.command.Update? then Some(op.command.id) else None
  }

  lemma {:induction false} StepKeeps(b: Books, op: Op)
    requires Inv(b)
    ensures Inv(After(b, op)) && Follows(b, After(b, op), EditedBy(op))
  {
    if Step(b, op).Ok? {
      match op.command
      case Update(id, p) => UpdateKeeps(b, id, p, op.today);
      case _ =>
        SoundnessIsClosed(b);
        StepPreserves(x => SoundSince(b, x), b, op);
    }
  }

  /** In every reachable state amounts balance, allocations are funded and the log mirrors the items. */
  lemma {:induction false} EveryRunIsSound(b: Books, ops: seq<Op>)
    requires Inv(b)
    ensures Inv(Run(b, ops))
  {
    if |ops| > 0 {
      EveryRunIsSound(b, ops[..|ops| - 1]);
      StepKeeps(Run(b, ops[..|ops| - 1]), ops[|ops| - 1]);
    }
  }

  lemma {:induction false} EveryReachableStateIsSound(ops: seq<Op>)
    ensures Inv(Run(EMPTY_BOOKS, ops))
  {
    EveryRunIsSound(EMPTY_BOOKS, ops);
  }

  /** No run rewrites the log or touches the amounts or status of a deleted item. */
  lemma {:induction false} HistoryIsNeverRewritten(b: Books, ops: seq<Op>)
    requires Inv(b)
    ensures var b' := Run(b, ops);
      b.events <= b'.events && |b.items| <= |b'.items| && forall i :: 0 <= i < |b.items| ==> Frozen(b, b', i)
  {
    if |ops| > 0 {
      var init := ops[..|ops| - 1];
      HistoryIsNeverRewritten(b, init);
      EveryRunIsSound(b, init);
      StepKeeps(Run(b, init), ops[|ops| - 1]);
      forall i | 0 <= i < |b.items| ensures Frozen(b, Run(b, ops), i) {
        assert Frozen(b, Run(b, init), i) && Frozen(Run(b, init), Run(b, ops), i);
      }
    }
  }

  ghost predicate NeverEdits(ops: seq<Op>, id: nat) {
    forall k :: 0 <= k < |ops| ==> EditedBy(ops[k]) != Some(id)
  }

  lemma {:induction false} BaselineIsKept(b: Books, ops: seq<Op>, id: nat)
    requires Inv(b) && id < |b.items| && NeverEdits(ops, id)
    ensures id < |Run(b, ops).items| && Baseline(Run(b, ops), id) == Baseline(b, id)
  {
    if |ops| > 0 {
      var init := ops[..|ops| - 1];
      BaselineIsKept(b, init, id);
      EveryRunIsSound(b, init);
      StepKeeps(Run(b, init), ops[|ops| - 1]);
    }
  }

  /** Two runs from the same state that leave an item the same allocated total leave it the same paid amount,
      whatever else they did and in whatever order; no update of that item may be among them. */
  lemma {:induction false} PaidDependsOnAllocationsOnly(b: Books, first: seq<Op>, second: seq<Op>, id: nat)
    requires Inv(b) && id < |b.items| && NeverEdits(first, id) && NeverEdits(second, id)
    requires AllocatedOf(Run(b, first).allocations, id) == AllocatedOf(Run(b, second).allocations, id)
    ensures id < |Run(b, first).items| && id < |Run(b, second).items|
    ensures Run(b, first).items[id].paid == Run(b, second).items[id].paid
  {
    BaselineIsKept(b, first, id);
    BaselineIsKept(b, second, id);
  }
}
