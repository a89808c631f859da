/** The integrity check of the owed log, its repair, and the replay of the log. */
module OwedIntegrity {
  import opened Outcomes
  import opened Ordering
  import opened Totals
  import opened OwedBooks
  import opened OwedPayments

  // ---------------------------------------------------------------- the log in (date, id) order

  function EventRank(events: seq<OwedEvent>): nat -> Rank {
    (i: nat) => Rank(if i < |events| then events[i].date else 0, i)
  }

  function Ascending(events: seq<OwedEvent>): seq<nat> {
    SortBy(EventRank(events), Ids(|events|))
  }

  function AboutItem(events: seq<OwedEvent>, id: nat): nat -> bool {
    (i: nat) => i < |events| && events[i].item == id
  }

  function EventAt(events: seq<OwedEvent>, i: Option<nat>): Option<OwedEvent> {
    if i.Some? && i.value < |events| then Some(events[i.value]) else None
  }

  /** The item's last event in (date, id) order. */
  function Latest(events: seq<OwedEvent>, id: nat): Option<OwedEvent> {
    EventAt(events, LastOf(AboutItem(events, id), Ascending(events)))
  }

  lemma {:induction false} AscendingHoldsAll(events: seq<OwedEvent>)
    ensures forall i: nat :: i in Ascending(events) <==> i < |events|
    ensures Ordered(EventRank(events), Ascending(events))
  {
    SortSorts(EventRank(events), Ids(|events|));
    forall i: nat ensures i in Ascending(events) <==> i < |events| {
      assert i in Ascending(events) <==> i in multiset(Ids(|events|));
      if i < |events| { assert Ids(|events|)[i] == i; }
    }
  }

  // ---------------------------------------------------------------- the check

  datatype Finding = NoEvent | LatestIsDeletion | Mismatch
  datatype Issue = Issue(item: nat, finding: Finding, remaining: int, status: Status, latest: Option<OwedEvent>)

  const LISTING_LIMIT: nat := 10000

  function VisibleIds(items: seq<Item>): nat -> bool {
    (i: nat) => i < |items| && !items[i].deleted
  }

  function NewestFirst(items: seq<Item>): nat -> Rank {
    (i: nat) => Rank(if i < |items| then -items[i].createdAt else 0, -(i as int))
  }

  /** The newest visible items, at most the listing limit. */
  function Listed(items: seq<Item>): seq<nat> {
    var all := SortBy(NewestFirst(items), Keep(VisibleIds(items), Ids(|items|)));
    if |all| <= LISTING_LIMIT then all else all[..LISTING_LIMIT]
  }

  function FindingOf(item: Item, latest: Option<OwedEvent>): Option<Finding> {
    if latest.None? then Some(NoEvent)
    else if latest.value.eventType.Deletion? then Some(LatestIsDeletion)
    else if latest.value.remaining != item.remaining || latest.value.status != item.status then Some(Mismatch)
    else None
  }

  function FindingAt(b: Books, id: nat): Option<Finding> {
    if id < |b.items| then FindingOf(b.items[id], Latest(b.events, id)) else None
  }

  function IssueFor(id: nat, item: Item, latest: Option<OwedEvent>): seq<Issue> {
    match FindingOf(item, latest)
    case None => []
    case Some(finding) => [Issue(id, finding, item.remaining, item.status, latest)]
  }

  function IssueAt(b: Books, id: nat): seq<Issue> {
    if id < |b.items| then IssueFor(id, b.items[id], Latest(b.events, id)) else []
  }

  function IssuesAmong(b: Books, ids: seq<nat>): seq<Issue> {
    if |ids| == 0 then [] else IssuesAmong(b, ids[..|ids| - 1]) + IssueAt(b, ids[|ids| - 1])
  }

  function FindIssues(b: Books): seq<Issue> {
    IssuesAmong(b, Listed(b.items))
  }

  lemma {:induction false} ListedExist(items: seq<Item>)
    ensures forall k :: 0 <= k < |Listed(items)| ==> VisibleIds(items)(Listed(items)[k])
  {
    var kept := Keep(VisibleIds(items), Ids(|items|));
    SortSorts(NewestFirst(items), kept);
    KeepMembers(VisibleIds(items), Ids(|items|));
    forall k | 0 <= k < |Listed(items)| ensures VisibleIds(items)(Listed(items)[k]) {
      assert Listed(items)[k] in multiset(SortBy(NewestFirst(items), kept));
      assert Listed(items)[k] in kept;
    }
  }

  // ---------------------------------------------------------------- the repair

  function Later(a: int, b: int): int {
    if a >= b then a else b
  }

  function Correction(b: Books, id: nat): OwedEvent
    requires id < |b.items| && Latest(b.events, id).Some?
  {
    EventFor(id, b.items[id], Payment, Later(b.items[id].updatedOn, Latest(b.events, id).value.date))
  }

  /** The corrective events for the stale items among `ids`. */
  function Corrections(b: Books, ids: seq<nat>): seq<OwedEvent> {
    if |ids| == 0 then []
    else
      var id := ids[|ids| - 1];
      Corrections(b, ids[..|ids| - 1])
      + if id < |b.items| && FindingAt(b, id) == Some(Mismatch) then [Correction(b, id)] else []
  }

  predicate EventChecks(e: OwedEvent) {
    RowChecks(e.total, e.paid, e.remaining)
  }

  predicate AllEventChecks(s: seq<OwedEvent>) {
    forall k | 0 <= k < |s| :: EventChecks(s[k])
  }

  function Backfill(b: Books): Result<Books> {
    var corrections := Corrections(b, Listed(b.items));
    if AllEventChecks(corrections) then Ok(b.(events := b.events + corrections)) else Refused(ABORTED)
  }

  function IsMismatch(): Issue -> bool {
    (i: Issue) => i.finding.Mismatch?
  }

  /** What the repair reports: the mismatches it found. */
  function RepairedIssues(b: Books): seq<Issue> {
    Keep(IsMismatch(), FindIssues(b))
  }

  // ---------------------------------------------------------------- replaying the log

  function UpTo(events: seq<OwedEvent>, id: nat, date: int): nat -> bool {
    (i: nat) => i < |events| && events[i].item == id && events[i].date <= date
  }

  /** The item's last event on or before a date. */
  function LatestUpTo(events: seq<OwedEvent>, id: nat, date: int): Option<OwedEvent> {
    EventAt(events, LastOf(UpTo(events, id, date), Ascending(events)))
  }

  /** What an event says is still owed. */
  function StillOwed(e: Option<OwedEvent>): int {
    if e.Some? && !e.value.eventType.Deletion? && IsActive(e.value.status) then e.value.remaining else 0
  }

  ghost function ItemsOf(events: seq<OwedEvent>): set<nat> {
    set i | 0 <= i < |events| :: events[i].item
  }

  /** The total owed on a date by the log alone: the simple definition. */
  ghost function ReplayAt(events: seq<OwedEvent>, date: int): int {
    SumOver(ItemsOf(events), OwedAt(events, date))
  }

  function OwedAt(events: seq<OwedEvent>, date: int): nat -> int {
    (id: nat) => StillOwed(LatestUpTo(events, id, date))
  }

  function ActiveRemaining(items: seq<Item>): nat -> int {
    (id: nat) => if id < |items| && !items[id].deleted && IsActive(items[id].status) then items[id].remaining else 0
  }

  ghost function IdSet(n: nat): set<nat> {
    set i | i in Ids(n)
  }

  /** What the items themselves say is owed now. */
  ghost function ActiveRemainingTotal(b: Books): int {
    SumOver(IdSet(|b.items|), ActiveRemaining(b.items))
  }
}
