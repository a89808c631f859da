/** The primitive moves every owed command is made of, and the induction principle they give. */
module OwedMoves {
  import opened Outcomes
  import opened Ordering
  import opened OwedBooks
  import opened OwedPayments
  import opened OwedInvariant

  datatype Move =
    | AddItem(item: Item, date: int)
    | Repost(id: nat, item: Item, eventType: EventType, date: int)
    | Relabel(person: string, today: int)
    | AddPayment(draft: PaymentDraft)
    | Grant(payment: nat, id: nat, amount: int, today: int)
    | Unwind(allocation: Allocation, today: int)
    | DropPayment(payment: nat)
    | PutTransaction(transaction: nat, row: Transaction)
    | DropTransaction(transaction: nat)

  ghost predicate TransactionIsUnused(b: Books, transaction: nat) {
    && (forall i :: 0 <= i < |b.items| ==> b.items[i].linked != Some(transaction))
    && (forall p :: p in b.payments ==> b.payments[p].linked != Some(transaction))
  }

  /** When a move is possible: what the commands have checked by the time they make it. */
  ghost predicate Enabled(b: Books, m: Move) {
    match m
    case AddItem(item, _) => ItemBalances(item) && !item.deleted && ReferencesHold(b, |b.items|, item)
    case Repost(id, item, eventType, date) =>
      && Visible(b, id) && Post(b, id, item, eventType, date).Ok?
      && item.paid == b.items[id].paid && item.paid + item.remaining == item.total
      && (eventType.Deletion? <==> item.deleted)
    case Relabel(_, _) => true
    case AddPayment(p) => p.amount > 0 && (p.linked.Some? ==> p.linked.value in b.transactions)
    case Grant(payment, id, amount, today) =>
      && payment in b.payments && Visible(b, id)
      && AllocatedFrom(b.allocations, payment) + amount <= b.payments[payment].amount
      && Allocate(b, payment, id, amount, amount, today).Ok?
    case Unwind(a, today) => a in b.allocations && ReverseOne(b, a, today).Ok?
    case DropPayment(payment) => forall j :: 0 <= j < |b.allocations| ==> b.allocations[j].payment != payment
    case PutTransaction(_, _) => true
    case DropTransaction(transaction) => TransactionIsUnused(b, transaction)
  }

  ghost function Play(b: Books, m: Move): Books
    requires Enabled(b, m)
  {
    match m
    case AddItem(item, date) =>
      b.(items := b.items + [item], events := b.events + [EventFor(|b.items|, item, Created, date)])
    case Repost(id, item, eventType, date) => Post(b, id, item, eventType, date).value
    case Relabel(person, today) => Relabelled(b, person, today)
    case AddPayment(p) => WithPayment(b, p)
    case Grant(payment, id, amount, today) => Allocate(b, payment, id, amount, amount, today).value
    case Unwind(a, today) => ReverseOne(b, a, today).value
    case DropPayment(payment) => b.(payments := b.payments - {payment})
    case PutTransaction(transaction, row) => b.(transactions := b.transactions[transaction := row])
    case DropTransaction(transaction) => b.(transactions := b.transactions - {transaction})
  }

  /** A property no enabled move can break. */
  ghost predicate Closed(inv: Books -> bool) {
    forall b, m :: inv(b) && Enabled(b, m) ==> inv(Play(b, m))
  }

  lemma {:induction false} NothingAllocatedYet(b: Books, payment: nat)
    requires AllocationsStand(b) && payment !in b.payments
    ensures AllocatedFrom(b.allocations, payment) == 0
  {
    forall j | 0 <= j < |b.allocations| ensures !OfPayment(payment)(b.allocations[j]) {
      assert AllocationStands(b, b.allocations[j]);
    }
    KeepNone(OfPayment(payment), b.allocations);
  }

  lemma {:induction false} RelabelKeeps(b: Books, person: string, today: int)
    requires Inv(b)
    ensures Inv(Relabelled(b, person, today)) && Follows(b, Relabelled(b, person, today), None)
  {
    var b' := Relabelled(b, person, today);
    forall i | 0 <= i < |b'.items| ensures LogMirrors(b', i) && ItemBalances(b'.items[i]) {
      assert LogMirrors(b, i) && ItemBalances(b.items[i]);
    }
    forall i | 0 <= i < |b'.items| ensures ReferencesHold(b', i, b'.items[i]) {
      assert ReferencesHold(b, i, b.items[i]);
    }
    SameAllocations(b, b');
  }

  lemma {:induction false} NewPaymentKeeps(b: Books, p: PaymentDraft)
    requires Inv(b) && p.amount > 0 && (p.linked.Some? ==> p.linked.value in b.transactions)
    ensures var b' := WithPayment(b, p);
      Inv(b') && Follows(b, b', None) && Unspent(b', b.nextPayment, p.amount)
  {
    var b' := WithPayment(b, p);
    SameLog(b, b');
    NothingAllocatedYet(b, b.nextPayment);
    assert AllocationsStand(b') by {
      forall j | 0 <= j < |b'.allocations| ensures AllocationStands(b', b'.allocations[j]) {
        assert AllocationStands(b, b.allocations[j]);
      }
    }
    assert ReferencesStand(b') by {
      forall i | 0 <= i < |b'.items| ensures ReferencesHold(b', i, b'.items[i]) {
        assert ReferencesHold(b, i, b.items[i]);
      }
    }
  }

  lemma {:induction false} DropPaymentKeeps(b: Books, payment: nat)
    requires Inv(b) && forall j :: 0 <= j < |b.allocations| ==> b.allocations[j].payment != payment
    ensures var b' := b.(payments := b.payments - {payment}); Inv(b') && Follows(b, b', None)
  {
    var b' := b.(payments := b.payments - {payment});
    SameLog(b, b');
    assert AllocationsStand(b') by {
      forall j | 0 <= j < |b'.allocations| ensures AllocationStands(b', b'.allocations[j]) {
        assert AllocationStands(b, b.allocations[j]);
      }
    }
    assert ReferencesStand(b') by {
      forall i | 0 <= i < |b'.items| ensures ReferencesHold(b', i, b'.items[i]) {
        assert ReferencesHold(b, i, b.items[i]);
      }
    }
  }

  lemma {:induction false} TransactionsKeep(b: Books, b': Books)
    requires Inv(b) && b' == b.(transactions := b'.transactions)
    requires forall i :: 0 <= i < |b.items| && b.items[i].linked.Some? ==> b.items[i].linked.value in b'.transactions
    requires forall p :: p in b.payments && b.payments[p].linked.Some? ==> b.payments[p].linked.value in b'.transactions
    ensures Inv(b') && Follows(b, b', None)
  {
    SameLog(b, b');
    SameAllocations(b, b');
    assert ReferencesStand(b') by {
      forall i | 0 <= i < |b'.items| ensures ReferencesHold(b', i, b'.items[i]) {
        assert ReferencesHold(b, i, b.items[i]);
      }
    }
  }

  /** Every enabled move keeps the invariant, freezes deleted items and moves no baseline. */
  lemma {:induction false} MoveKeeps(b: Books, m: Move)
    requires Inv(b) && Enabled(b, m)
    ensures Inv(Play(b, m)) && Follows(b, Play(b, m), None)
  {
    match m
    case AddItem(item, date) => NewItemKeeps(b, item, date, Play(b, m));
    case Repost(id, item, eventType, date) => PostKeeps(b, id, item, eventType, date);
    case Relabel(person, today) => RelabelKeeps(b, person, today);
    case AddPayment(p) => NewPaymentKeeps(b, p);
    case Grant(payment, id, amount, today) =>
      GrantKeeps(b, payment, id, amount, today);
    case Unwind(a, today) =>
      var j :| 0 <= j < |b.allocations| && b.allocations[j] == a;
      ReverseOneKeeps(b, j, today);
    case DropPayment(payment) => DropPaymentKeeps(b, payment);
    case PutTransaction(_, _) => ReferencesReach(b); TransactionsKeep(b, Play(b, m));
    case DropTransaction(_) => ReferencesReach(b); TransactionsKeep(b, Play(b, m));
  }

  lemma {:induction false} ReferencesReach(b: Books)
    requires ReferencesStand(b)
    ensures forall i :: 0 <= i < |b.items| && b.items[i].linked.Some? ==> b.items[i].linked.value in b.transactions
  {
  }

  lemma {:induction false} GrantKeeps(b: Books, payment: nat, id: nat, amount: int, today: int)
    requires Inv(b) && Enabled(b, Grant(payment, id, amount, today))
    ensures var b' := Allocate(b, payment, id, amount, amount, today).value; Inv(b') && Follows(b, b', None)
  {
    var left := b.payments[payment].amount - AllocatedFrom(b.allocations, payment);
    assert Allocate(b, payment, id, amount, left, today) == Allocate(b, payment, id, amount, amount, today);
    AllocateKeeps(b, payment, id, amount, left, today);
  }

  /** Sound, and a proper successor of `origin`. */
  ghost predicate SoundSince(origin: Books, b: Books) {
    Inv(b) && Follows(origin, b, None)
  }

  lemma {:induction false} SoundnessIsClosed(origin: Books)
    ensures Closed(b => SoundSince(origin, b))
  {
    forall b, m | SoundSince(origin, b) && Enabled(b, m) ensures SoundSince(origin, Play(b, m)) {
      MoveKeeps(b, m);
      FollowsInTurn(origin, b, Play(b, m), None);
    }
  }
}
