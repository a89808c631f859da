/** The combined commands told by fields: which splits, creations and deletions of transactions go through. */
module OwedCommandLaws {
  import opened Outcomes
  import opened Ordering
  import opened OwedBooks
  import opened OwedPayments
  import opened OwedCommands
  import opened OwedInvariant
  import opened OwedHistory
  import opened OwedWaterfall
  import opened OwedEffects
  import opened OwedItemLaws

  // ---------------------------------------------------------------- deleting a transaction

  /** The item, deleted or not, hangs on the transaction. */
  predicate HangsOn(b: Books, t: nat, i: nat) {
    i < |b.items| && b.items[i].linked == Some(t)
  }

  predicate IsReceivedUnder(b: Books, t: nat, p: nat) {
    p in b.payments && b.payments[p].linked == Some(t)
  }

  ghost predicate NothingHangs(b: Books, t: nat) {
    (forall i: nat :: !HangsOn(b, t, i)) && (forall p: nat :: !IsReceivedUnder(b, t, p))
  }

  lemma {:induction false} HangingMembers(b: Books, t: nat)
    ensures forall i: nat :: i in LinkedItems(b, t) <==> HangsOn(b, t, i)
  {
    KeepMembers(LinkedTo(b.items, t), Ids(|b.items|));
    forall i: nat ensures i in LinkedItems(b, t) <==> HangsOn(b, t, i) {
      if i < |b.items| { assert Ids(|b.items|)[i] == i; }
    }
  }

  lemma {:induction false} HangingOrder(b: Books, t: nat)
    ensures Distinct(LinkedItems(b, t)) && Ordered(IdOrder(), LinkedItems(b, t))
  {
    KeptAreDistinct(LinkedTo(b.items, t), Ids(|b.items|));
    KeepOrder(IdOrder(), LinkedTo(b.items, t), Ids(|b.items|));
  }

  lemma {:induction false} HangingItems(b: Books, t: nat)
    ensures forall i: nat :: i in LinkedItems(b, t) <==> HangsOn(b, t, i)
    ensures Distinct(LinkedItems(b, t)) && Ordered(IdOrder(), LinkedItems(b, t))
    ensures LinkedItems(b, t) == [] <==> forall i: nat :: !HangsOn(b, t, i)
  {
    HangingMembers(b, t);
    HangingOrder(b, t);
    assert LinkedItems(b, t) != [] ==> LinkedItems(b, t)[0] in LinkedItems(b, t);
  }

  /** A transaction is deleted on its own exactly when it is there and nothing hangs on it. */
  lemma {:induction false} DeleteTransactionByFields(b: Books, t: nat)
    ensures t !in b.transactions ==> RemoveTransaction(b, t) == Refused(404)
    ensures t in b.transactions && !NothingHangs(b, t) ==> RemoveTransaction(b, t) == Refused(409)
    ensures t in b.transactions && NothingHangs(b, t) ==>
      RemoveTransaction(b, t) == Ok(b.(transactions := b.transactions - {t}))
  {
    HangingItems(b, t);
    if HasLinkedPayments(b, t) {
      var p :| p in b.payments && b.payments[p].linked == Some(t);
      assert IsReceivedUnder(b, t, p);
    }
  }

  // ---------------------------------------------------------------- deleting it with its owed items

  /** The caller names each item that hangs on the transaction once, and was shown what is there now. */
  ghost predicate WasShown(b: Books, t: nat, expectedIds: seq<nat>, expected: Version)
    requires t in b.transactions
  {
    && Distinct(expectedIds) && (forall i: nat :: i in expectedIds <==> HangsOn(b, t, i))
    && expected == VersionOf(b, t)
  }

  lemma {:induction false} NotLaterIsSmaller(x: nat, y: nat)
    requires !Before(IdOrder()(y), IdOrder()(x))
    ensures x <= y
  {
  }

  lemma {:induction false} AscendingIdsAreEqual(s: seq<nat>, t: seq<nat>)
    requires Distinct(s) && Distinct(t) && Ordered(IdOrder(), s) && Ordered(IdOrder(), t)
    requires forall i: nat :: i in s <==> i in t
    ensures s == t
    decreases |s|
  {
    assert |s| > 0 ==> s[0] in s;
    assert |t| > 0 ==> t[0] in t;
    if |s| > 0 && |t| > 0 {
      LastIsGreatest(s);
      LastIsGreatest(t);
      var x, y := s[|s| - 1], t[|t| - 1];
      assert x in s && y in t;
      assert x == y;
      var a, c := s[..|s| - 1], t[..|t| - 1];
      forall i: nat ensures i in a <==> i in c {
        AllButLast(s, i);
        AllButLast(t, i);
      }
      AscendingIdsAreEqual(a, c);
      assert s == a + [x] && t == c + [y];
    }
  }

  lemma {:induction false} LastIsGreatest(s: seq<nat>)
    requires |s| > 0 && Ordered(IdOrder(), s)
    ensures forall i: nat :: i in s ==> i <= s[|s| - 1]
  {
    forall i: nat | i in s ensures i <= s[|s| - 1] {
      var k :| 0 <= k < |s| && s[k] == i;
      if k < |s| - 1 { NotLaterIsSmaller(i, s[|s| - 1]); }
    }
  }

  lemma {:induction false} AllButLast(s: seq<nat>, i: nat)
    requires |s| > 0 && Distinct(s)
    ensures i in s[..|s| - 1] <==> i in s && i != s[|s| - 1]
  {
  }

  lemma {:induction false} ShownByFields(b: Books, t: nat, expectedIds: seq<nat>, expected: Version)
    requires t in b.transactions
    ensures WasShown(b, t, expectedIds, expected)
       <==> SortBy(IdOrder(), expectedIds) == LinkedItems(b, t) && expected == VersionOf(b, t)
  {
    HangingItems(b, t);
    SortSorts(IdOrder(), expectedIds);
    SortKeepsMembers(expectedIds);
    if WasShown(b, t, expectedIds, expected) {
      SortKeepsDistinct(IdOrder(), expectedIds);
      AscendingIdsAreEqual(SortBy(IdOrder(), expectedIds), LinkedItems(b, t));
    }
    if SortBy(IdOrder(), expectedIds) == LinkedItems(b, t) {
      SortOfDistinct(expectedIds);
    }
  }

  lemma {:induction false} SortOfDistinct(s: seq<nat>)
    requires Distinct(SortBy(IdOrder(), s))
    ensures Distinct(s)
  {
    SortSorts(IdOrder(), s);
    var t := SortBy(IdOrder(), s);
    if !Distinct(s) {
      var j, k :| 0 <= j < k < |s| && s[j] == s[k];
      TwiceInMultiset(s, j, k);
      OnceInMultiset(t, s[j]);
    }
  }

  lemma {:induction false} TwiceInMultiset(s: seq<nat>, j: nat, k: nat)
    requires j < k < |s| && s[j] == s[k]
    ensures multiset(s)[s[j]] >= 2
  {
    assert s == s[..k] + [s[k]] + s[k + 1..];
    assert s[..k][j] == s[j];
    assert s[j] in multiset(s[..k]);
  }

  lemma {:induction false} OnceInMultiset(s: seq<nat>, x: nat)
    requires Distinct(s)
    ensures multiset(s)[x] <= 1
  {
    if |s| > 0 {
      var n := |s| - 1;
      OnceInMultiset(s[..n], x);
      assert s == s[..n] + [s[n]];
      if s[n] == x { assert x !in s[..n]; }
    }
  }

  /** No item may be deleted already, and to be deleted none may have been paid or hold an allocation. */
  ghost predicate MayBeDetached(b: Books, t: nat, strategy: Strategy) {
    forall i: nat :: HangsOn(b, t, i) ==>
      && !b.items[i].deleted
      && (strategy.DeleteWithOwed? ==>
           b.items[i].paid <= 0 && forall k :: 0 <= k < |b.allocations| ==> b.allocations[k].item != i)
  }

  /** The person some visible item or some payment names. */
  ghost predicate IsKnown(b: Books, person: string) {
    || (exists i :: 0 <= i < |b.items| && !b.items[i].deleted && b.items[i].person == person)
    || (exists p :: p in b.payments && b.payments[p].person == person)
  }

  lemma {:induction false} UnallocatedByFields(b: Books, ids: seq<nat>)
    ensures Keep(OfItems(ids), b.allocations) == []
       <==> forall k :: 0 <= k < |b.allocations| ==> b.allocations[k].item !in ids
  {
    KeepMembers(OfItems(ids), b.allocations);
    if forall k :: 0 <= k < |b.allocations| ==> b.allocations[k].item !in ids {
      KeepNone(OfItems(ids), b.allocations);
    }
    if Keep(OfItems(ids), b.allocations) == [] {
      forall k | 0 <= k < |b.allocations| ensures b.allocations[k].item !in ids {
        assert b.allocations[k] !in Keep(OfItems(ids), b.allocations);
      }
    }
  }

  /** The listed items may be detached. */
  ghost predicate ListMayBeDetached(b: Books, ids: seq<nat>, strategy: Strategy)
    requires AllExist(b, ids)
  {
    && (forall k :: 0 <= k < |ids| ==> !b.items[ids[k]].deleted)
    && (strategy.DeleteWithOwed? ==>
         && (forall k :: 0 <= k < |ids| ==> b.items[ids[k]].paid <= 0)
         && forall k :: 0 <= k < |b.allocations| ==> b.allocations[k].item !in ids)
  }

  lemma {:induction false} ListOfHanging(b: Books, t: nat, ids: seq<nat>, strategy: Strategy)
    requires AllExist(b, ids) && forall i: nat :: i in ids <==> HangsOn(b, t, i)
    ensures MayBeDetached(b, t, strategy) <==> ListMayBeDetached(b, ids, strategy)
  {
    assert forall k :: 0 <= k < |ids| ==> ids[k] in ids;
  }

  lemma {:induction false} DetachableByFields(b: Books, t: nat, strategy: Strategy)
    requires (exists i: nat :: HangsOn(b, t, i)) && forall p: nat :: !IsReceivedUnder(b, t, p)
    ensures MayBeDetached(b, t, strategy)
       <==> if strategy.DeleteWithOwed? then DeleteAllowed(b, t) else PreserveAllowed(b, t)
  {
    HangingItems(b, t);
    LinkedItemsExist(b, t);
    PaymentsUnder(b, t);
    UnallocatedByFields(b, LinkedItems(b, t));
    ListOfHanging(b, t, LinkedItems(b, t), strategy);
  }

  /** Detaching items of sound tables always goes through. */
  lemma {:induction false} DetachingSucceeds(b: Books, ids: seq<nat>, strategy: Strategy, today: int)
    requires AllExist(b, ids) && forall i :: 0 <= i < |b.items| ==> ItemBalances(b.items[i])
    ensures DetachAll(b, ids, strategy, today).Ok?
    decreases |ids|
  {
    if |ids| > 0 {
      assert ItemBalances(b.items[ids[0]]);
      var b1 := DetachOne(b, ids[0], strategy, today).value;
      DetachingSucceeds(b1, ids[1..], strategy, today);
    }
  }

  lemma {:induction false} KnownByFields(b: Books, person: string)
    ensures KnowsPerson(b, person) <==> IsKnown(b, person)
  {
  }

  /** Money out with owed items and without payments, as the caller was shown it. */
  ghost predicate IsAsShown(b: Books, t: nat, expectedIds: seq<nat>, expected: Version)
    requires t in b.transactions
  {
    && b.transactions[t].direction == MoneyOut && (exists i: nat :: HangsOn(b, t, i))
    && (forall p: nat :: !IsReceivedUnder(b, t, p)) && WasShown(b, t, expectedIds, expected)
  }

  lemma {:induction false} AllocationsAreKnown(b: Books, ids: seq<nat>)
    requires AllocationsStand(b)
    ensures !exists k :: 0 <= k < |b.allocations| && b.allocations[k].item in ids && b.allocations[k].payment !in b.payments
  {
    assert forall k :: 0 <= k < |b.allocations| ==> AllocationStands(b, b.allocations[k]);
  }

  lemma {:induction false} ShownDecides(b: Books, t: nat, expectedIds: seq<nat>, expected: Version)
    requires t in b.transactions
    ensures IsAsShown(b, t, expectedIds, expected) <==>
      && LinkedItems(b, t) != [] && b.transactions[t].direction.MoneyOut? && !HasLinkedPayments(b, t)
      && SortBy(IdOrder(), expectedIds) == LinkedItems(b, t) && expected == VersionOf(b, t)
  {
    HangingItems(b, t);
    ShownByFields(b, t, expectedIds, expected);
    PaymentsUnder(b, t);
  }

  lemma {:induction false} NotShownIsConflict(b: Books, t: nat, expectedIds: seq<nat>, expected: Version,
                                              strategy: Strategy, today: int)
    requires t in b.transactions && !IsAsShown(b, t, expectedIds, expected)
    ensures DeleteTransactionWithOwed(b, t, expectedIds, expected, strategy, today) == Refused(409)
  {
    ShownDecides(b, t, expectedIds, expected);
  }

  lemma {:induction false} ShownIsDecided(b: Books, t: nat, expectedIds: seq<nat>, expected: Version, strategy: Strategy,
                                          today: int)
    requires Inv(b) && t in b.transactions && IsAsShown(b, t, expectedIds, expected)
    ensures var r := DeleteTransactionWithOwed(b, t, expectedIds, expected, strategy, today);
      var allowed := if strategy.DeleteWithOwed? then DeleteAllowed(b, t) else PreserveAllowed(b, t);
      var known := strategy.PreserveOwed? ==> KnowsPerson(b, strategy.replacement);
      && (!allowed ==> r == Refused(409)) && (allowed && !known ==> r == Refused(400)) && (allowed && known ==> r.Ok?)
  {
    var ids := LinkedItems(b, t);
    LinkedItemsExist(b, t);
    ShownDecides(b, t, expectedIds, expected);
    AllocationsAreKnown(b, ids);
    DetachingSucceeds(b, ids, strategy, today);
  }

  /** A transaction is deleted with its owed items exactly when it is money out with items and no payment hanging on it,
      the caller was shown what is there, the items may be detached, and a replacement is a known person; an unknown
      transaction is not found, an unknown replacement a bad request, and anything else a conflict. */
  lemma {:induction false} DeleteWithOwedByFields(b: Books, t: nat, expectedIds: seq<nat>, expected: Version,
                                                  strategy: Strategy, today: int)
    requires Inv(b)
    ensures var r := DeleteTransactionWithOwed(b, t, expectedIds, expected, strategy, today);
      && (t !in b.transactions ==> r == Refused(404))
      && (t in b.transactions ==>
           var safe := IsAsShown(b, t, expectedIds, expected) && MayBeDetached(b, t, strategy);
           var known := strategy.PreserveOwed? ==> IsKnown(b, strategy.replacement);
           && (!safe ==> r == Refused(409)) && (safe && !known ==> r == Refused(400)) && (safe && known ==> r.Ok?))
  {
    if t in b.transactions {
      if IsAsShown(b, t, expectedIds, expected) {
        ShownIsDecided(b, t, expectedIds, expected, strategy, today);
        DetachableByFields(b, t, strategy);
      } else {
        NotShownIsConflict(b, t, expectedIds, expected, strategy, today);
      }
      if strategy.PreserveOwed? { KnownByFields(b, strategy.replacement); }
    }
  }

  lemma {:induction false} PaymentsUnder(b: Books, t: nat)
    ensures HasLinkedPayments(b, t) <==> exists p: nat :: IsReceivedUnder(b, t, p)
  {
    if HasLinkedPayments(b, t) {
      var p :| p in b.payments && b.payments[p].linked == Some(t);
      assert IsReceivedUnder(b, t, p);
    }
  }

  /** A version tells the transaction, its items, the allocations to them and the payments under it: none of these can
      change unnoticed. */
  lemma {:induction false} VersionTells(b: Books, b': Books, t: nat)
    requires t in b.transactions && t in b'.transactions && VersionOf(b, t) == VersionOf(b', t)
    ensures b.transactions[t] == b'.transactions[t]
    ensures forall i: nat :: HangsOn(b, t, i) <==> HangsOn(b', t, i)
    ensures forall i: nat :: HangsOn(b, t, i) ==> i < |b.items| && i < |b'.items| && b.items[i] == b'.items[i]
    ensures forall p: nat :: IsReceivedUnder(b, t, p) <==> IsReceivedUnder(b', t, p)
    ensures forall p: nat :: IsReceivedUnder(b, t, p) ==> p in b'.payments && b.payments[p] == b'.payments[p]
    ensures Keep(OfItems(LinkedItems(b, t)), b.allocations) == Keep(OfItems(LinkedItems(b', t)), b'.allocations)
  {
    var v, v' := VersionOf(b, t), VersionOf(b', t);
    var ids, ids' := LinkedItems(b, t), LinkedItems(b', t);
    HangingItems(b, t);
    HangingItems(b', t);
    LinkedItemsExist(b, t);
    LinkedItemsExist(b', t);
    assert |ids| == |v.items| == |ids'|;
    forall k | 0 <= k < |ids| ensures ids[k] == ids'[k] && b.items[ids[k]] == b'.items[ids'[k]] {
      assert v.items[k] == (ids[k], b.items[ids[k]]) && v'.items[k] == (ids'[k], b'.items[ids'[k]]);
    }
    assert ids == ids';
    var rows, rows' := Keep(OfItems(ids), b.allocations), Keep(OfItems(ids'), b'.allocations);
    assert |rows| == |v.allocations| == |rows'|;
    forall k | 0 <= k < |rows| ensures rows[k] == rows'[k] {
      assert v.allocations[k].0 == rows[k] && v'.allocations[k].0 == rows'[k];
    }
    forall p: nat
      ensures IsReceivedUnder(b, t, p) <==> p in v.payments
      ensures IsReceivedUnder(b', t, p) <==> p in v'.payments
    {
    }
  }

  // ---------------------------------------------------------------- splits without payments

  ghost predicate NothingIsPaid(rows: seq<SplitRow>) {
    forall k :: 0 <= k < |rows| ==> rows[k].payment == None
  }

  /** No item carries the key that a split's item for this person would get. */
  predicate MayGetItem(b: Books, t: nat, person: string) {
    forall j | 0 <= j < |b.items| :: b.items[j].dedupe != Some(Derived(t, person, "manual"))
  }

  lemma {:induction false} UnpaidRows(b: Books, person: string, id: nat, rows: seq<SplitRow>, left: int, today: int)
    requires NothingIsPaid(rows)
    ensures PaySplitRows(b, person, id, rows, left, today) == Ok(b)
    decreases |rows|
  {
    if |rows| > 0 {
      UnpaidRows(b, person, id, rows[1..], left, today);
    }
  }

  ghost predicate GroupIsUnpaid(g: Group) {
    NothingIsPaid(g.rows) && RowsTotal(g.rows) > 0 && g.person != ""
  }

  ghost predicate GroupsAreUnpaid(groups: seq<Group>) {
    forall k :: 0 <= k < |groups| ==> GroupIsUnpaid(groups[k])
  }

  lemma {:induction false} GroupIsCreated(b: Books, t: nat, g: Group, now: int, today: int)
    requires NothingIsPaid(g.rows) && RowsTotal(g.rows) > 0 && g.person != ""
    requires t in b.transactions && b.transactions[t].direction.MoneyOut?
    requires LinkedOwedTotal(b.items, t, None) + RowsTotal(g.rows) <= b.transactions[t].amount
    ensures AfterGroup(b, t, g, now, today).Ok? <==> MayGetItem(b, t, g.person)
    ensures AfterGroup(b, t, g, now, today).Refused? ==> AfterGroup(b, t, g, now, today) == Refused(409)
    ensures AfterGroup(b, t, g, now, today).Ok? ==>
      var b' := AfterGroup(b, t, g, now, today).value;
      && b'.transactions == b.transactions && |b'.items| == |b.items| + 1 && b'.items[..|b.items|] == b.items
      && b'.items[|b.items|].dedupe == Some(Derived(t, g.person, "manual"))
      && LinkedOwedTotal(b'.items, t, None) == LinkedOwedTotal(b.items, t, None) + RowsTotal(g.rows)
  {
    var created := CreateItem(b, GroupDraft(g, t), now, today);
    if created.Ok? { UnpaidRows(created.value, g.person, |b.items|, g.rows, RowsTotal(g.rows), today); }
  }

  lemma {:induction false} OthersMayStill(b: Books, b': Books, t: nat, g: Group, groups: seq<Group>)
    requires |b'.items| == |b.items| + 1 && b'.items[..|b.items|] == b.items
    requires b'.items[|b.items|].dedupe == Some(Derived(t, g.person, "manual")) && g.person !in PeopleOf(groups)
    ensures (forall k :: 0 <= k < |groups| ==> MayGetItem(b', t, groups[k].person))
       <==> forall k :: 0 <= k < |groups| ==> MayGetItem(b, t, groups[k].person)
  {
    forall k | 0 <= k < |groups| ensures MayGetItem(b', t, groups[k].person) <==> MayGetItem(b, t, groups[k].person) {
      PersonOfGroup(groups, k);
      assert forall j :: 0 <= j < |b.items| ==> b'.items[..|b.items|][j] == b.items[j];
    }
  }

  lemma {:induction false} PersonOfGroup(groups: seq<Group>, k: nat)
    requires k < |groups|
    ensures groups[k].person in PeopleOf(groups)
  {
    if k > 0 {
      PersonOfGroup(groups[1..], k - 1);
    }
  }

  ghost predicate AllMayGetItems(b: Books, t: nat, groups: seq<Group>) {
    forall k :: 0 <= k < |groups| ==> MayGetItem(b, t, groups[k].person)
  }

  lemma {:induction false} UnpaidGroups(b: Books, t: nat, groups: seq<Group>, now: int, today: int)
    requires GroupsAreUnpaid(groups) && PeopleDiffer(groups)
    requires t in b.transactions && b.transactions[t].direction.MoneyOut?
    requires LinkedOwedTotal(b.items, t, None) + GroupsTotal(groups) <= b.transactions[t].amount && GroupsTotal(groups) >= 0
    ensures SplitGroups(b, t, groups, now, today).Ok? <==> AllMayGetItems(b, t, groups)
    ensures SplitGroups(b, t, groups, now, today).Refused? ==> SplitGroups(b, t, groups, now, today) == Refused(409)
    decreases |groups|
  {
    if |groups| > 0 {
      var g := groups[0];
      RestIsPositive(groups);
      GroupIsCreated(b, t, g, now, today);
      if AfterGroup(b, t, g, now, today).Ok? {
        var b1 := AfterGroup(b, t, g, now, today).value;
        UnpaidGroups(b1, t, groups[1..], now, today);
        OthersMayStill(b, b1, t, g, groups[1..]);
        FirstAndOthers(b, t, groups);
      }
    }
  }

  lemma {:induction false} RestIsPositive(groups: seq<Group>)
    requires |groups| > 0 && GroupsAreUnpaid(groups)
    ensures GroupsTotal(groups) == RowsTotal(groups[0].rows) + GroupsTotal(groups[1..]) && GroupsTotal(groups[1..]) >= 0
    decreases |groups|
  {
    if |groups| > 1 {
      RestIsPositive(groups[1..]);
    }
  }

  lemma {:induction false} FirstAndOthers(b: Books, t: nat, groups: seq<Group>)
    requires |groups| > 0
    ensures AllMayGetItems(b, t, groups) <==> MayGetItem(b, t, groups[0].person) && AllMayGetItems(b, t, groups[1..])
  {
    if MayGetItem(b, t, groups[0].person) && AllMayGetItems(b, t, groups[1..]) {
      forall k | 0 <= k < |groups| ensures MayGetItem(b, t, groups[k].person) {
        if k > 0 { assert groups[1..][k - 1] == groups[k]; }
      }
    }
  }

  lemma {:induction false} UnpaidRowMore(rows: seq<SplitRow>, row: SplitRow)
    requires NothingIsPaid(rows) && RowsTotal(rows) >= 0 && row.payment == None && row.amount > 0
    ensures NothingIsPaid(rows + [row]) && RowsTotal(rows + [row]) > 0
  {
    RowsTotalOneMore(rows, row);
  }

  lemma {:induction false} UnpaidRowsInGroups(groups: seq<Group>, row: SplitRow)
    requires GroupsAreUnpaid(groups) && row.payment == None && row.amount > 0 && row.person != ""
    ensures GroupsAreUnpaid(AddToGroups(groups, row))
    decreases |groups|
  {
    if |groups| == 0 {
      UnpaidRowMore([], row);
      assert [] + [row] == [row];
    } else {
      var g, rest := groups[0], groups[1..];
      assert GroupIsUnpaid(g);
      if g.person == row.person {
        UnpaidRowMore(g.rows, row);
        assert AddToGroups(groups, row) == [Group(row.person, g.rows + [row])] + rest;
      } else {
        UnpaidRowsInGroups(rest, row);
        assert AddToGroups(groups, row) == [g] + AddToGroups(rest, row);
      }
    }
  }

  lemma {:induction false} GroupsOfUnpaid(rows: seq<SplitRow>)
    requires NothingIsPaid(rows) && AllRowsAccepted(rows)
    ensures GroupsAreUnpaid(GroupByPerson(rows))
  {
    if |rows| > 0 {
      GroupsOfUnpaid(rows[..|rows| - 1]);
      UnpaidRowsInGroups(GroupByPerson(rows[..|rows| - 1]), rows[|rows| - 1]);
    }
  }

  lemma {:induction false} PeopleOfRows(rows: seq<SplitRow>, person: string)
    ensures person in PeopleOf(GroupByPerson(rows)) <==> exists k :: 0 <= k < |rows| && rows[k].person == person
  {
    GroupsHoldEachPersonsRows(rows, person);
    KeepMembers(RowOf(person), rows);
    if k :| 0 <= k < |rows| && rows[k].person == person {
      assert rows[k] in Keep(RowOf(person), rows);
    }
    if Keep(RowOf(person), rows) != [] {
      assert Keep(RowOf(person), rows)[0] in Keep(RowOf(person), rows);
    }
  }

  lemma {:induction false} GroupOfPerson(groups: seq<Group>, person: string) returns (k: nat)
    requires person in PeopleOf(groups)
    ensures k < |groups| && groups[k].person == person
  {
    if groups[0].person == person {
      k := 0;
    } else {
      k := GroupOfPerson(groups[1..], person);
      k := k + 1;
    }
  }

  predicate RowFields(row: SplitRow) {
    row.person != "" && row.amount > 0
  }

  /** A split without payments goes through exactly when its rows name people and positive amounts, its transaction is money
      out and has room for all of them, and none of the people has had an item from it yet. */
  lemma {:induction false} UnpaidSplitByFields(b: Books, t: nat, rows: seq<SplitRow>, now: int, today: int)
    requires NothingIsPaid(rows)
    ensures var r := SplitTransaction(b, t, rows, now, today);
      var valid := |rows| > 0 && forall k :: 0 <= k < |rows| ==> RowFields(rows[k]);
      var room := t in b.transactions && b.transactions[t].direction == MoneyOut
        && OwedOn(b.items, t, None) + RowsTotal(rows) <= b.transactions[t].amount;
      && (!valid ==> r == Refused(422))
      && (valid && t !in b.transactions ==> r == Refused(404))
      && (valid && t in b.transactions && !room ==> r == Refused(400))
      && (valid && room ==>
           if forall k :: 0 <= k < |rows| ==> MayGetItem(b, t, rows[k].person) then r.Ok? else r == Refused(409))
  {
    OwedOnIsLinkedTotal(b.items, t, None);
    if |rows| > 0 && forall k :: 0 <= k < |rows| ==> RowFields(rows[k]) {
      assert AllRowsAccepted(rows);
      UnpaidPeople(b, t, rows);
      GroupsOfUnpaid(rows);
      GroupsHoldEachPersonsRows(rows, "");
      TotalIsPositive(rows);
      if t in b.transactions && b.transactions[t].direction == MoneyOut
         && OwedOn(b.items, t, None) + RowsTotal(rows) <= b.transactions[t].amount {
        UnpaidGroups(b, t, GroupByPerson(rows), now, today);
      }
    }
  }

  lemma {:induction false} TotalIsPositive(rows: seq<SplitRow>)
    requires AllRowsAccepted(rows)
    ensures RowsTotal(rows) >= 0
  {
    if |rows| > 0 {
      TotalIsPositive(rows[..|rows| - 1]);
    }
  }

  lemma {:induction false} UnpaidPeople(b: Books, t: nat, rows: seq<SplitRow>)
    ensures AllMayGetItems(b, t, GroupByPerson(rows)) <==> forall k :: 0 <= k < |rows| ==> MayGetItem(b, t, rows[k].person)
  {
    var groups := GroupByPerson(rows);
    if AllMayGetItems(b, t, groups) {
      forall k | 0 <= k < |rows| ensures MayGetItem(b, t, rows[k].person) {
        PeopleOfRows(rows, rows[k].person);
        var j := GroupOfPerson(groups, rows[k].person);
      }
    }
    if forall k :: 0 <= k < |rows| ==> MayGetItem(b, t, rows[k].person) {
      forall j | 0 <= j < |groups| ensures MayGetItem(b, t, groups[j].person) {
        PersonOfGroup(groups, j);
        PeopleOfRows(rows, groups[j].person);
      }
    }
  }

  // ---------------------------------------------------------------- a transaction created with owed records

  function KeyUnder(d: ItemDraft, t: nat): Option<DedupeKey> {
    KeyOfDraft(d.(linked := Some(t)))
  }

  /** No draft has more paid than owed, and their keys are free and differ. */
  ghost predicate DraftsFit(items: seq<Item>, drafts: seq<ItemDraft>, t: nat) {
    && (forall k :: 0 <= k < |drafts| ==> DraftFits(items, drafts[k], t))
    && (forall j, k :: 0 <= j < k < |drafts| ==> KeyUnder(drafts[j], t) != KeyUnder(drafts[k], t))
  }

  ghost predicate DraftFits(items: seq<Item>, d: ItemDraft, t: nat) {
    d.paid <= d.total && KeyIsFree(items, KeyUnder(d, t), |items|)
  }

  ghost predicate DraftsAreValid(drafts: seq<ItemDraft>) {
    forall k :: 0 <= k < |drafts| ==> DraftFields(drafts[k])
  }

  lemma {:induction false} DraftsTotalFromFront(drafts: seq<ItemDraft>)
    requires |drafts| > 0 && DraftsAreValid(drafts)
    ensures DraftsTotal(drafts) == drafts[0].total + DraftsTotal(drafts[1..]) && DraftsTotal(drafts[1..]) >= 0
  {
    if |drafts| > 1 {
      DraftsTotalFromFront(drafts[..|drafts| - 1]);
      assert drafts[1..][..|drafts| - 2] == drafts[..|drafts| - 1][1..];
    } else {
      assert drafts[1..] == [] && drafts[..0] == [];
    }
  }

  lemma {:induction false} OneDraft(b: Books, d: ItemDraft, t: nat, now: int, today: int)
    requires DraftFields(d) && t in b.transactions && b.transactions[t].direction.MoneyOut?
    requires LinkedOwedTotal(b.items, t, None) + d.total <= b.transactions[t].amount
    ensures var r := CreateItem(b, d.(linked := Some(t)), now, today);
      && (r.Ok? <==> DraftFits(b.items, d, t))
      && (r.Ok? ==>
           && r.value.transactions == b.transactions && |r.value.items| == |b.items| + 1
           && r.value.items[..|b.items|] == b.items && r.value.items[|b.items|].dedupe == KeyUnder(d, t)
           && LinkedOwedTotal(r.value.items, t, None) == LinkedOwedTotal(b.items, t, None) + d.total)
  {
  }

  lemma {:induction false} OthersFitStill(items: seq<Item>, items': seq<Item>, drafts: seq<ItemDraft>, t: nat)
    requires |drafts| > 0 && |items'| == |items| + 1 && items'[..|items|] == items
    requires items'[|items|].dedupe == KeyUnder(drafts[0], t) && DraftFits(items, drafts[0], t)
    ensures DraftsFit(items', drafts[1..], t) <==> DraftsFit(items, drafts, t)
  {
    assert forall j :: 0 <= j < |items| ==> items'[..|items|][j] == items[j];
    forall k | 0 < k < |drafts|
      ensures DraftFits(items', drafts[k], t)
         <==> DraftFits(items, drafts[k], t) && KeyUnder(drafts[0], t) != KeyUnder(drafts[k], t)
    {
    }
    if DraftsFit(items', drafts[1..], t) {
      forall k | 0 <= k < |drafts| ensures DraftFits(items, drafts[k], t) {
        if k > 0 { assert drafts[1..][k - 1] == drafts[k]; }
      }
      forall j, k | 0 <= j < k < |drafts| ensures KeyUnder(drafts[j], t) != KeyUnder(drafts[k], t) {
        assert drafts[1..][k - 1] == drafts[k] && (j > 0 ==> drafts[1..][j - 1] == drafts[j]);
        assert DraftFits(items', drafts[1..][k - 1], t);
      }
    }
  }

  lemma {:induction false} DraftsByFields(b: Books, drafts: seq<ItemDraft>, t: nat, now: int, today: int)
    requires DraftsAreValid(drafts) && t in b.transactions && b.transactions[t].direction.MoneyOut?
    requires LinkedOwedTotal(b.items, t, None) + DraftsTotal(drafts) <= b.transactions[t].amount
    ensures CreateItems(b, drafts, t, now, today).Ok? <==> DraftsFit(b.items, drafts, t)
    decreases |drafts|
  {
    if |drafts| > 0 {
      DraftsTotalFromFront(drafts);
      OneDraft(b, drafts[0], t, now, today);
      if DraftFits(b.items, drafts[0], t) {
        var b1 := CreateItem(b, drafts[0].(linked := Some(t)), now, today).value;
        DraftsByFields(b1, drafts[1..], t, now, today);
        OthersFitStill(b.items, b1.items, drafts, t);
      }
    }
  }

  lemma {:induction false} NothingLinkedYet(items: seq<Item>, t: nat)
    requires forall i :: 0 <= i < |items| ==> items[i].linked != Some(t)
    ensures LinkedOwedTotal(items, t, None) == 0
  {
    if |items| > 0 {
      NothingLinkedYet(items[..|items| - 1], t);
    }
  }

  /** Money out is created with its owed items exactly when all fields are valid, the items together fit it, its id is new,
      and the items' keys are free and differ. */
  lemma {:induction false} CreateWithItemsByFields(b: Books, t: nat, row: Transaction, drafts: seq<ItemDraft>, now: int,
                                                   today: int)
    requires Inv(b) && |drafts| > 0
    ensures var r := CreateTransactionWithOwed(b, t, row, drafts, None, now, today);
      var valid := row.amount > 0 && row.direction == MoneyOut && DraftsAreValid(drafts);
      var fits := DraftsTotal(drafts) <= row.amount;
      && (!valid ==> r == Refused(422)) && (valid && !fits ==> r == Refused(400))
      && (valid && fits && t in b.transactions ==> r == Refused(500))
      && (valid && fits && t !in b.transactions ==> (r.Ok? <==> DraftsFit(b.items, drafts, t)))
  {
    if row.amount > 0 && row.direction == MoneyOut && DraftsAreValid(drafts) && DraftsTotal(drafts) <= row.amount
       && t !in b.transactions {
      NothingLinkedYet(b.items, t);
      DraftsByFields(b.(transactions := b.transactions[t := row]), drafts, t, now, today);
    }
  }

  /** Money in created with a payment from it is the transaction, and then the payment under it; without owed records it is
      the transaction alone. */
  lemma {:induction false} CreateWithPaymentByFields(b: Books, t: nat, row: Transaction, p: PaymentDraft, now: int,
                                                     today: int)
    requires row.amount > 0 && t !in b.transactions
    ensures CreateTransactionWithOwed(b, t, row, [], None, now, today) == Ok(b.(transactions := b.transactions[t := row]))
    ensures CreateTransactionWithOwed(b, t, row, [], Some(p), now, today)
         == if row.direction == MoneyIn && PaymentSchemaAccepts(p)
            then RecordPayment(b.(transactions := b.transactions[t := row]), p.(linked := Some(t)), today)
            else Refused(422)
  {
  }
}
