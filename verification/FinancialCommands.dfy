/** The financial commands: the owed service and the transactions in one unit of work. */
module FinancialCommands {
  import opened Outcomes
  import opened Ordering
  import opened OwedBooks
  import opened OwedPayments
  import opened OwedCommands
  import opened OwedService

  class FinancialCommandService {
    const owed: Service

    constructor (owed: Service)
      ensures this.owed == owed
    {
      this.owed := owed;
    }

    /** Record one row's payment, if there is one and the person still owes; answers what the person owes then. */
    method AddRowPayment(person: string, id: nat, row: SplitRow, left: int, today: int) returns (r: Result<int>)
      modifies owed
      ensures match RowStep(old(owed.State()), person, id, row, left, today)
        case Ok((b, rest)) => owed.State() == b && r == Ok(rest)
        case Refused(status) => r == Refused(status)
    {
      if row.payment.None? || left <= 0 {
        return Ok(left);
      }
      var p := row.payment.value;
      var allocation := Least(Least(p.amount, row.amount), left);
      if p.amount - allocation - RequestedTotal(p.extra) < 0 {
        return Refused(BAD_REQUEST);
      }
      var _ :- owed.AddPayment(RowPayment(person, p, id, allocation), today);
      return Ok(left - allocation);
    }

    /** Record the payments of one person's rows, counting down what the person still owes. */
    method AddRowPayments(person: string, id: nat, rows: seq<SplitRow>, total: int, today: int) returns (r: Result<()>)
      modifies owed
      ensures match PaySplitRows(old(owed.State()), person, id, rows, total, today)
        case Ok(b) => owed.State() == b && r.Ok?
        case Refused(status) => r == Refused(status)
    {
      var left := total;
      var k := 0;
      while k < |rows|
        invariant k <= |rows|
        invariant PaySplitRows(owed.State(), person, id, rows[k..], left, today)
               == PaySplitRows(old(owed.State()), person, id, rows, total, today)
      {
        assert rows[k..][1..] == rows[k + 1..];
        left :- AddRowPayment(person, id, rows[k], left, today);
        k := k + 1;
      }
      return Ok(());
    }

    method CreateOwedSplit(transaction: nat, rows: seq<SplitRow>, now: int, today: int) returns (r: Result<()>)
      modifies owed
      ensures match SplitTransaction(old(owed.State()), transaction, rows, now, today)
        case Ok(b) => owed.State() == b && r.Ok?
        case Refused(status) => owed.State() == old(owed.State()) && r == Refused(status)
    {
      if !SplitSchemaAccepts(rows) {
        return Refused(UNPROCESSABLE);
      }
      if transaction !in owed.transactions {
        return Refused(NOT_FOUND);
      }
      if !owed.transactions[transaction].direction.MoneyOut? {
        return Refused(BAD_REQUEST);
      }
      if LinkedOwedTotal(owed.items, transaction, None) + RowsTotal(rows) > owed.transactions[transaction].amount {
        return Refused(BAD_REQUEST);
      }
      var before, groups := owed.State(), GroupByPerson(rows);
      var k := 0;
      while k < |groups|
        invariant k <= |groups|
        invariant SplitGroups(owed.State(), transaction, groups[k..], now, today)
               == SplitGroups(before, transaction, groups, now, today)
      {
        assert groups[k..][1..] == groups[k + 1..];
        var g, total := groups[k], RowsTotal(groups[k].rows);
        var id := owed.AddItem(ItemDraft(g.person, total, 0, None, Some(transaction), "manual", None), now, today);
        if id.Refused? {
          owed.Rollback(before);
          return Refused(id.status);
        }
        r := AddRowPayments(g.person, id.value, g.rows, total, today);
        if r.Refused? {
          owed.Rollback(before);
          return;
        }
        k := k + 1;
      }
      return Ok(());
    }

    method CreateTransactionWithOwed(id: nat, t: Transaction, drafts: seq<ItemDraft>, payment: Option<PaymentDraft>,
                                     now: int, today: int) returns (r: Result<()>)
      modifies owed
      ensures match OwedCommands.CreateTransactionWithOwed(old(owed.State()), id, t, drafts, payment, now, today)
        case Ok(b) => owed.State() == b && r.Ok?
        case Refused(status) => owed.State() == old(owed.State()) && r == Refused(status)
    {
      if !CombinationSchemaAccepts(t, drafts, payment) {
        return Refused(UNPROCESSABLE);
      }
      if DraftsTotal(drafts) > t.amount {
        return Refused(BAD_REQUEST);
      }
      if id in owed.transactions {
        return Refused(ABORTED);
      }
      var before := owed.State();
      owed.transactions := owed.transactions[id := t];
      ghost var saved := owed.State();
      var k := 0;
      while k < |drafts|
        invariant k <= |drafts|
        invariant CreateItems(owed.State(), drafts[k..], id, now, today) == CreateItems(saved, drafts, id, now, today)
      {
        assert drafts[k..][1..] == drafts[k + 1..];
        var created := owed.AddItem(drafts[k].(linked := Some(id)), now, today);
        if created.Refused? {
          owed.Rollback(before);
          return Refused(created.status);
        }
        k := k + 1;
      }
      if payment.Some? {
        var recorded := owed.AddPayment(payment.value.(linked := Some(id)), today);
        if recorded.Refused? {
          owed.Rollback(before);
          return Refused(recorded.status);
        }
      }
      return Ok(());
    }

    method DeleteTransactionWithLinkedOwed(transaction: nat, expectedIds: seq<nat>, expected: Version,
                                           strategy: Strategy, today: int) returns (r: Result<()>)
      modifies owed
      ensures match DeleteTransactionWithOwed(old(owed.State()), transaction, expectedIds, expected, strategy, today)
        case Ok(b) => owed.State() == b && r.Ok?
        case Refused(status) => owed.State() == old(owed.State()) && r == Refused(status)
    {
      var before := owed.State();
      if transaction !in owed.transactions {
        return Refused(NOT_FOUND);
      }
      var ids := LinkedItems(before, transaction);
      if (ids != [] && !owed.transactions[transaction].direction.MoneyOut?)
         || (HasLinkedPayments(before, transaction) && !owed.transactions[transaction].direction.MoneyIn?)
         || (exists k | 0 <= k < |owed.allocations| :: owed.allocations[k].item in ids && owed.allocations[k].payment !in owed.payments)
         || SortBy(IdOrder(), expectedIds) != ids || expected != VersionOf(before, transaction)
         || ids == [] {
        return Refused(CONFLICT);
      }
      if strategy.DeleteWithOwed? && !DeleteAllowed(before, transaction) {
        return Refused(CONFLICT);
      }
      if strategy.PreserveOwed? && !PreserveAllowed(before, transaction) {
        return Refused(CONFLICT);
      }
      if strategy.PreserveOwed? && !KnowsPerson(before, strategy.replacement) {
        return Refused(BAD_REQUEST);
      }
      LinkedItemsExist(before, transaction);
      r := DetachItems(ids, strategy, today);
      if r.Refused? {
        owed.Rollback(before);
        return;
      }
      owed.transactions := owed.transactions - {transaction};
    }

    /** Detach each item from its transaction, deleting it or handing it over. */
    method DetachItems(ids: seq<nat>, strategy: Strategy, today: int) returns (r: Result<()>)
      requires AllExist(owed.State(), ids)
      modifies owed`items, owed`events
      ensures match DetachAll(old(owed.State()), ids, strategy, today)
        case Ok(b) => owed.State() == b && r.Ok?
        case Refused(status) => r == Refused(status)
    {
      var k := 0;
      while k < |ids|
        invariant k <= |ids| && AllExist(owed.State(), ids)
        invariant DetachAll(owed.State(), ids[k..], strategy, today) == DetachAll(old(owed.State()), ids, strategy, today)
      {
        assert ids[k..][1..] == ids[k + 1..];
        var item := owed.items[ids[k]].(linked := None, dedupe := None, updatedOn := today);
        match strategy {
          case DeleteWithOwed =>
            var _ :- owed.SaveWithEvent(ids[k], item.(deleted := true), Deletion, today);
          case PreserveOwed(person) =>
            var _ :- owed.SaveWithEvent(ids[k], item.(person := person), Adjusted, today);
        }
        k := k + 1;
      }
      return Ok(());
    }
  }
}
