/** Single owed items told by fields: which requests to create, change or delete one are accepted, and what is written. */
module OwedItemLaws {
  import opened Outcomes
  import opened Totals
  import opened OwedBooks
  import opened OwedPayments
  import opened OwedInvariant
  import opened OwedIntegrity

  // ---------------------------------------------------------------- capacity and references

  /** An item that counts towards its transaction. */
  predicate Counts(item: Item, t: nat) {
    item.linked == Some(t) && !item.deleted && item.status != Cancelled
  }

  function CountedTotal(items: seq<Item>, t: nat): nat -> int {
    (i: nat) => if i < |items| && Counts(items[i], t) then items[i].total else 0
  }

  /** What is owed on a transaction by all items but the excluded one. */
  ghost function OwedOn(items: seq<Item>, t: nat, excluded: Option<nat>): int {
    SumOver(AllBut(|items|, excluded), CountedTotal(items, t))
  }

  ghost function AllBut(n: nat, excluded: Option<nat>): set<nat> {
    IdSet(n) - if excluded.Some? then {excluded.value} else {}
  }

  lemma {:induction false} OneIdMore(n: nat, excluded: Option<nat>)
    ensures excluded == Some(n) ==> AllBut(n + 1, excluded) == AllBut(n, excluded)
    ensures excluded != Some(n) ==> n in AllBut(n + 1, excluded) && AllBut(n + 1, excluded) - {n} == AllBut(n, excluded)
    ensures forall i: nat :: i in AllBut(n, excluded) <==> i < n && excluded != Some(i)
  {
    IdsBelow(n);
    IdsBelow(n + 1);
  }

  lemma {:induction false} IdsBelow(n: nat)
    ensures forall i: nat :: i in IdSet(n) <==> i < n
  {
    forall i: nat ensures i in IdSet(n) <==> i < n {
      if i < n { assert Ids(n)[i] == i; }
    }
  }

  lemma {:induction false} OwedOnIsLinkedTotal(items: seq<Item>, t: nat, excluded: Option<nat>)
    ensures OwedOn(items, t, excluded) == LinkedOwedTotal(items, t, excluded)
  {
    if |items| == 0 {
      IdsBelow(0);
      assert AllBut(0, excluded) == {};
    } else {
      var n := |items| - 1;
      OwedOnIsLinkedTotal(items[..n], t, excluded);
      OneIdMore(n, excluded);
      SameTerms(AllBut(n, excluded), CountedTotal(items, t), CountedTotal(items[..n], t));
      if excluded != Some(n) { TakeOut(AllBut(n + 1, excluded), CountedTotal(items, t), n); }
    }
  }

  /** A live item may be linked only to money out that still has room for it. */
  ghost predicate HasRoom(b: Books, linked: Option<nat>, total: int, excluded: Option<nat>) {
    linked.Some? ==>
      && linked.value in b.transactions && b.transactions[linked.value].direction == MoneyOut
      && OwedOn(b.items, linked.value, excluded) + total <= b.transactions[linked.value].amount
  }

  lemma {:induction false} RoomByFields(b: Books, linked: Option<nat>, total: int, status: Status, excluded: Option<nat>)
    ensures HasCapacity(b, linked, total, status, excluded) <==> status == Cancelled || HasRoom(b, linked, total, excluded)
  {
    if linked.Some? {
      OwedOnIsLinkedTotal(b.items, linked.value, excluded);
    }
  }

  /** No other item, deleted ones included, carries the key. */
  predicate KeyIsFree(items: seq<Item>, key: Option<DedupeKey>, id: nat) {
    key.Some? ==> forall j | 0 <= j < |items| && j != id :: items[j].dedupe != key
  }

  /** The status that amounts alone give. */
  predicate TellsAmounts(status: Status, paid: int, remaining: int) {
    && (status == Paid <==> remaining == 0)
    && (status == PartiallyPaid <==> remaining != 0 && paid > 0)
    && (status == Open <==> remaining != 0 && paid <= 0)
  }

  /** The log has got one more entry, with the item's amounts and status. */
  ghost predicate LogsOne(events: seq<OwedEvent>, events': seq<OwedEvent>, id: nat, item: Item, eventType: EventType,
                          date: int) {
    events' == events + [OwedEvent(id, eventType, date, item.total, item.paid, item.remaining, item.status)]
  }

  ghost predicate OnlyItemsAndLog(b: Books, b': Books) {
    b' == b.(items := b'.items, events := b'.events)
  }

  // ---------------------------------------------------------------- create

  /** The key a draft is stored under: the client's, or for a linked item one made of transaction, person and source. */
  function KeyOfDraft(d: ItemDraft): Option<DedupeKey> {
    match (d.dedupe, d.linked)
    case (Some(_), _) => d.dedupe
    case (None, Some(t)) => Some(Derived(t, d.person, d.source))
    case (None, None) => None
  }

  predicate DraftFields(d: ItemDraft) {
    d.person != "" && d.total > 0 && d.paid >= 0
  }

  /** An item is created exactly when its fields are valid, its key is free, no more is paid than owed, and its transaction
      has room for it; refusals come in this order. */
  lemma {:induction false} CreateByFields(b: Books, d: ItemDraft, now: int, today: int)
    ensures var r := CreateItem(b, d, now, today);
      var free := KeyIsFree(b.items, KeyOfDraft(d), |b.items|);
      && (!DraftFields(d) ==> r == Refused(422))
      && (DraftFields(d) && !free ==> r == Refused(409))
      && (DraftFields(d) && free ==>
           if d.paid <= d.total && HasRoom(b, d.linked, d.total, None) then r.Ok? else r == Refused(400))
  {
    RoomByFields(b, d.linked, d.total, Open, None);
    RoomByFields(b, d.linked, d.total, PartiallyPaid, None);
    RoomByFields(b, d.linked, d.total, Paid, None);
  }

  /** The new item comes last with the draft's fields, open, partially paid or paid by its amounts, and is logged as created
      on the date of its transaction, or else on its due date, or else today. */
  lemma {:induction false} CreatedByFields(b: Books, d: ItemDraft, now: int, today: int)
    requires CreateItem(b, d, now, today).Ok?
    ensures var b' := CreateItem(b, d, now, today).value;
      && OnlyItemsAndLog(b, b') && |b'.items| == |b.items| + 1 && b'.items[..|b.items|] == b.items
      && var item := b'.items[|b.items|];
      && item == Item(d.person, d.total, d.paid, d.total - d.paid, item.status, d.linked, KeyOfDraft(d), now, today, false)
      && TellsAmounts(item.status, d.paid, d.total - d.paid)
      && (d.linked.Some? ==>
           d.linked.value in b.transactions
           && LogsOne(b.events, b'.events, |b.items|, item, Created, b.transactions[d.linked.value].date))
      && (d.linked.None? ==>
           LogsOne(b.events, b'.events, |b.items|, item, Created, if d.dueDate.Some? then d.dueDate.value else today))
  {
  }

  // ---------------------------------------------------------------- update

  /** Each field given in the patch has its given value, each one left out is as it was; the rest follows from the amounts,
      unless a status is given. */
  ghost predicate ItemIsPatched(was: Item, p: ItemPatch, now: Item, today: int) {
    && Sets(p.person, was.person, now.person) && Sets(p.total, was.total, now.total) && Sets(p.paid, was.paid, now.paid)
    && Patches(p.linked, was.linked, now.linked) && Patches(p.dedupe, was.dedupe, now.dedupe)
    && now.remaining == now.total - now.paid
    && (p.status.Some? ==> now.status == p.status.value)
    && (p.status.None? ==> TellsAmounts(now.status, now.paid, now.remaining))
    && now.createdAt == was.createdAt && now.updatedOn == today && now.deleted == was.deleted
  }

  predicate PatchFields(p: ItemPatch) {
    && p.person != Some("") && (p.total.Some? ==> p.total.value > 0) && (p.paid.Some? ==> p.paid.value >= 0)
  }

  /** What the capacity check looks at: the link given, or else the one there was, even when it is being cleared. */
  function LinkChecked(was: Item, now: Item): Option<nat> {
    if now.linked.Some? then now.linked else was.linked
  }

  /** A patched item passes the checks of its row: amounts, its transaction, and its key. */
  ghost predicate RowIsSound(b: Books, id: nat, item: Item) {
    && item.total > 0 && item.paid >= 0 && item.paid <= item.total
    && (item.linked.Some? ==> item.linked.value in b.transactions)
    && KeyIsFree(b.items, item.dedupe, id)
  }

  /** An item is changed exactly when the patch's fields are valid, the item is there, no more is then paid than owed, an
      item not cancelled finds room, and the row is sound; refusals come in this order. */
  lemma {:induction false} UpdateByFields(b: Books, id: nat, p: ItemPatch, today: int, now: Item)
    requires Visible(b, id) ==> ItemIsPatched(b.items[id], p, now, today) && ItemBalances(b.items[id])
    ensures var r := UpdateItem(b, id, p, today);
      && (!PatchFields(p) ==> r == Refused(422))
      && (PatchFields(p) && !Visible(b, id) ==> r == Refused(404))
      && (PatchFields(p) && Visible(b, id) ==>
           var fits := now.paid <= now.total
             && (now.status == Cancelled || HasRoom(b, LinkChecked(b.items[id], now), now.total, Some(id)));
           && (!fits ==> r == Refused(400))
           && (fits && !RowIsSound(b, id, now) ==> r == Refused(500))
           && (fits && RowIsSound(b, id, now) ==> r.Ok?))
  {
    if Visible(b, id) {
      RoomByFields(b, LinkChecked(b.items[id], now), now.total, now.status, Some(id));
    }
  }

  /** The patched item takes the old one's place; the log gets an entry exactly when an amount or the status has changed. */
  lemma {:induction false} UpdatedByFields(b: Books, id: nat, p: ItemPatch, today: int)
    requires UpdateItem(b, id, p, today).Ok?
    ensures Visible(b, id)
    ensures var b' := UpdateItem(b, id, p, today).value;
      && OnlyItemsAndLog(b, b') && |b'.items| == |b.items|
      && (forall i :: 0 <= i < |b.items| && i != id ==> b'.items[i] == b.items[i])
      && var was, now := b.items[id], b'.items[id];
      && ItemIsPatched(was, p, now, today)
      && (if was.total == now.total && was.paid == now.paid && was.status == now.status then b'.events == b.events
          else if was.status != Cancelled && now.status == Cancelled then
            LogsOne(b.events, b'.events, id, now, Cancellation, today)
          else if was.status == Cancelled && now.status != Cancelled then
            LogsOne(b.events, b'.events, id, now, Reopened, today)
          else LogsOne(b.events, b'.events, id, now, Adjusted, today))
  {
  }

  // ---------------------------------------------------------------- delete

  /** A visible item of sound tables is marked deleted, nothing else about it, and logged as such today; any other id is
      not found. */
  lemma {:induction false} DeleteByFields(b: Books, id: nat, today: int)
    requires Inv(b)
    ensures !Visible(b, id) ==> DeleteItem(b, id, today) == Refused(404)
    ensures Visible(b, id) ==> DeleteItem(b, id, today).Ok?
    ensures Visible(b, id) ==>
      var b' := DeleteItem(b, id, today).value;
      && OnlyItemsAndLog(b, b') && |b'.items| == |b.items|
      && (forall i :: 0 <= i < |b.items| && i != id ==> b'.items[i] == b.items[i])
      && b'.items[id] == b.items[id].(deleted := true, updatedOn := today)
      && LogsOne(b.events, b'.events, id, b.items[id], Deletion, today)
  {
    if Visible(b, id) {
      assert ItemBalances(b.items[id]) && ReferencesHold(b, id, b.items[id]);
    }
  }
}
