/** What the integrity check and its repair guarantee, and when replaying the log gives the present total. */
module OwedIntegrityLaws {
  import opened Outcomes
  import opened Ordering
  import opened Totals
  import opened OwedBooks
  import opened OwedPayments
  import opened OwedInvariant
  import opened OwedWaterfall
  import opened OwedIntegrity
  import opened OwedCapacity
  import opened OwedSettlement

  // ---------------------------------------------------------------- the latest event

  /** Event `i` is about the item and no other such event has a later date, or the same date and a larger id. */
  ghost predicate IsLatest(events: seq<OwedEvent>, id: nat, i: nat) {
    && i < |events| && events[i].item == id
    && forall j :: 0 <= j < |events| && events[j].item == id ==>
         events[j].date < events[i].date || (events[j].date == events[i].date && j <= i)
  }

  /** Overwriting in order keeps exactly the event with the greatest (date, id). */
  lemma {:induction false} LatestIsGreatest(events: seq<OwedEvent>, id: nat)
    ensures Latest(events, id).None? <==> forall i :: 0 <= i < |events| ==> events[i].item != id
    ensures Latest(events, id).Some? ==> exists i: nat :: IsLatest(events, id, i) && Latest(events, id) == Some(events[i])
  {
    AscendingHoldsAll(events);
    LastOfMembers(AboutItem(events, id), Ascending(events));
    if Latest(events, id).Some? {
      LastOfIsGreatest(EventRank(events), AboutItem(events, id), Ascending(events));
      var i := LastOf(AboutItem(events, id), Ascending(events)).value;
      forall j | 0 <= j < |events| && events[j].item == id
        ensures events[j].date < events[i].date || (events[j].date == events[i].date && j <= i)
      {
        assert AboutItem(events, id)(j);
      }
      assert IsLatest(events, id, i);
    } else {
      forall i | 0 <= i < |events| ensures events[i].item != id { assert !AboutItem(events, id)(i); }
    }
  }

  lemma {:induction false} TheLatest(events: seq<OwedEvent>, id: nat, i: nat)
    requires IsLatest(events, id, i)
    ensures Latest(events, id) == Some(events[i])
  {
    LatestIsGreatest(events, id);
    var k: nat :| IsLatest(events, id, k) && Latest(events, id) == Some(events[k]);
    assert k == i;
  }

  // ---------------------------------------------------------------- the listing

  lemma {:induction false} VisibleOnce(items: seq<Item>)
    ensures var all := SortBy(NewestFirst(items), Keep(VisibleIds(items), Ids(|items|)));
      Distinct(all) && forall i: nat :: i in all <==> i < |items| && !items[i].deleted
  {
    var kept := Keep(VisibleIds(items), Ids(|items|));
    var all := SortBy(NewestFirst(items), kept);
    OwedHistory.KeptAreDistinct(VisibleIds(items), Ids(|items|));
    SortKeepsDistinct(NewestFirst(items), kept);
    SortSorts(NewestFirst(items), kept);
    KeepMembers(VisibleIds(items), Ids(|items|));
    forall i: nat ensures i in all <==> i < |items| && !items[i].deleted {
      assert i in all <==> i in multiset(all);
      assert i in kept <==> i in multiset(kept);
      if i < |items| { assert Ids(|items|)[i] == i; }
    }
  }

  ghost predicate AllAreListed(items: seq<Item>) {
    |SortBy(NewestFirst(items), Keep(VisibleIds(items), Ids(|items|)))| <= LISTING_LIMIT
  }

  lemma {:induction false} ListedItems(items: seq<Item>)
    ensures Distinct(Listed(items))
    ensures forall i: nat :: i in Listed(items) ==> i < |items| && !items[i].deleted
    ensures AllAreListed(items) ==> forall i: nat :: i < |items| && !items[i].deleted ==> i in Listed(items)
  {
    VisibleOnce(items);
    var all := SortBy(NewestFirst(items), Keep(VisibleIds(items), Ids(|items|)));
    forall i: nat | i in Listed(items) ensures i in all { }
  }

  /** An issue is reported exactly for each listed item with a finding. */
  lemma {:induction false} IssuesAreFindings(b: Books, ids: seq<nat>)
    ensures IssuesAmong(b, ids) == [] <==> forall k :: 0 <= k < |ids| ==> FindingAt(b, ids[k]).None?
  {
    if |ids| > 0 {
      IssuesAreFindings(b, ids[..|ids| - 1]);
      assert forall k :: 0 <= k < |ids| - 1 ==> ids[..|ids| - 1][k] == ids[k];
    }
  }

  // ---------------------------------------------------------------- the report by fields

  /** Created later, or at the same time under a greater id. */
  predicate IsNewer(items: seq<Item>, i: nat, j: nat)
    requires i < |items| && j < |items|
  {
    items[i].createdAt > items[j].createdAt || (items[i].createdAt == items[j].createdAt && i > j)
  }

  ghost predicate NewerComeFirst(items: seq<Item>, ids: seq<nat>) {
    forall j, k :: 0 <= j < k < |ids| ==> ids[j] < |items| && ids[k] < |items| && IsNewer(items, ids[j], ids[k])
  }

  lemma {:induction false} NotEarlierIsNewer(items: seq<Item>, i: nat, j: nat)
    requires i < |items| && j < |items| && i != j && !Before(NewestFirst(items)(j), NewestFirst(items)(i))
    ensures IsNewer(items, i, j)
  {
  }

  lemma {:induction false} OrderIsByNewness(items: seq<Item>, ids: seq<nat>)
    requires Distinct(ids) && Ordered(NewestFirst(items), ids)
    requires forall k :: 0 <= k < |ids| ==> ids[k] < |items|
    ensures NewerComeFirst(items, ids)
  {
    forall j, k | 0 <= j < k < |ids| ensures IsNewer(items, ids[j], ids[k]) {
      NotEarlierIsNewer(items, ids[j], ids[k]);
    }
  }

  /** The listing shows the newest ten thousand visible items, the newest first: none that is left out is newer. */
  lemma {:induction false} ListedByAge(items: seq<Item>)
    ensures NewerComeFirst(items, Listed(items)) && |Listed(items)| <= 10_000
    ensures forall i: nat, j: nat :: i in Listed(items) && j < |items| && !items[j].deleted && j !in Listed(items) ==>
      i < |items| && IsNewer(items, i, j) && |Listed(items)| == 10_000
  {
    var all := SortBy(NewestFirst(items), Keep(VisibleIds(items), Ids(|items|)));
    VisibleOnce(items);
    SortSorts(NewestFirst(items), Keep(VisibleIds(items), Ids(|items|)));
    assert forall k :: 0 <= k < |all| ==> all[k] in all;
    OrderIsByNewness(items, all);
    forall i: nat, j: nat | i in Listed(items) && j < |items| && !items[j].deleted && j !in Listed(items)
      ensures i < |items| && IsNewer(items, i, j) && |Listed(items)| == 10_000
    {
      LeftOutIsOlder(items, all, i, j);
    }
  }

  lemma {:induction false} LeftOutIsOlder(items: seq<Item>, all: seq<nat>, i: nat, j: nat)
    requires NewerComeFirst(items, all) && j in all
    requires var shown := if |all| <= LISTING_LIMIT then all else all[..LISTING_LIMIT]; i in shown && j !in shown
    ensures i < |items| && j < |items| && IsNewer(items, i, j) && |all| > LISTING_LIMIT
  {
    var k :| 0 <= k < |all| && all[k] == j;
    assert |all| > LISTING_LIMIT;
    var shown := all[..LISTING_LIMIT];
    var h :| 0 <= h < |shown| && shown[h] == i;
    assert forall m :: 0 <= m < |shown| ==> shown[m] == all[m];
  }

  /** What the check says of an item, by the event that is last by date and then by writing. */
  ghost predicate TellsFinding(item: Item, events: seq<OwedEvent>, id: nat, finding: Finding, latest: Option<OwedEvent>) {
    match finding
    case NoEvent => latest == None && forall i :: 0 <= i < |events| ==> events[i].item != id
    case LatestIsDeletion =>
      latest.Some? && latest.value.eventType == Deletion
      && exists i: nat :: IsLatest(events, id, i) && events[i] == latest.value
    case Mismatch =>
      latest.Some? && latest.value.eventType != Deletion
      && (latest.value.remaining != item.remaining || latest.value.status != item.status)
      && exists i: nat :: IsLatest(events, id, i) && events[i] == latest.value
  }

  ghost predicate TellsIssue(b: Books, issue: Issue) {
    && issue.item < |b.items|
    && issue.remaining == b.items[issue.item].remaining && issue.status == b.items[issue.item].status
    && TellsFinding(b.items[issue.item], b.events, issue.item, issue.finding, issue.latest)
  }

  function HasFinding(b: Books): nat -> bool {
    (id: nat) => FindingAt(b, id).Some?
  }

  function ItemOfIssue(): Issue -> nat {
    (issue: Issue) => issue.item
  }

  lemma {:induction false} IssueTells(b: Books, id: nat)
    requires FindingAt(b, id).Some?
    ensures |IssueAt(b, id)| == 1 && IssueAt(b, id)[0].item == id && TellsIssue(b, IssueAt(b, id)[0])
  {
    LatestIsGreatest(b.events, id);
  }

  /** Every issue tells its item's amounts and the event in question, and there is one for each item with a finding, in the
      order of the listing. */
  lemma {:induction false} IssuesByFields(b: Books, ids: seq<nat>)
    ensures forall k :: 0 <= k < |IssuesAmong(b, ids)| ==> TellsIssue(b, IssuesAmong(b, ids)[k])
    ensures Project(ItemOfIssue(), IssuesAmong(b, ids)) == Keep(HasFinding(b), ids)
  {
    if |ids| > 0 {
      var init, id := ids[..|ids| - 1], ids[|ids| - 1];
      IssuesByFields(b, init);
      if FindingAt(b, id).Some? {
        IssueTells(b, id);
        assert IssuesAmong(b, ids) == IssuesAmong(b, init) + [IssueAt(b, id)[0]];
      } else {
        assert IssuesAmong(b, ids) == IssuesAmong(b, init);
      }
    }
  }

  /** An item is clean exactly when its latest event is no deletion and carries what remains and the status. */
  lemma {:induction false} CleanByFields(b: Books, id: nat)
    requires id < |b.items|
    ensures FindingAt(b, id).None? <==>
      exists i: nat :: IsLatest(b.events, id, i) && b.events[i].eventType != Deletion
        && b.events[i].remaining == b.items[id].remaining && b.events[i].status == b.items[id].status
  {
    LatestIsGreatest(b.events, id);
    if FindingAt(b, id).Some? {
      forall i: nat | IsLatest(b.events, id, i) ensures Latest(b.events, id) == Some(b.events[i]) {
        TheLatest(b.events, id, i);
      }
    }
  }

  /** A corrective event carries the item's amounts and status, as a payment on the day of the item's last change or of its
      latest event, whichever is later. */
  lemma {:induction false} CorrectionByFields(b: Books, id: nat)
    requires id < |b.items| && Latest(b.events, id).Some?
    ensures var e, item := Correction(b, id), b.items[id];
      && e.item == id && e.eventType == Payment
      && e.total == item.total && e.paid == item.paid && e.remaining == item.remaining && e.status == item.status
      && e.date >= item.updatedOn && e.date >= Latest(b.events, id).value.date
      && (e.date == item.updatedOn || e.date == Latest(b.events, id).value.date)
  {
  }

  // ---------------------------------------------------------------- the repair

  ghost predicate Corrects(b: Books, e: OwedEvent, ids: seq<nat>) {
    && e.item in ids && e.item < |b.items| && FindingAt(b, e.item) == Some(Mismatch) && e == Correction(b, e.item)
  }

  lemma {:induction false} CorrectionsAreExact(b: Books, ids: seq<nat>)
    requires Distinct(ids)
    ensures forall k :: 0 <= k < |Corrections(b, ids)| ==> Corrects(b, Corrections(b, ids)[k], ids)
    ensures forall j, k :: 0 <= j < k < |Corrections(b, ids)| ==> Corrections(b, ids)[j].item != Corrections(b, ids)[k].item
  {
    if |ids| > 0 {
      var init, id, s := ids[..|ids| - 1], ids[|ids| - 1], Corrections(b, ids[..|ids| - 1]);
      CorrectionsAreExact(b, init);
      assert ids == init + [id];
      var all := Corrections(b, ids);
      forall k | 0 <= k < |all| ensures Corrects(b, all[k], ids) {
        if k < |s| { assert Corrects(b, s[k], init); }
      }
      forall k | 0 <= k < |s| ensures s[k].item != id { assert Corrects(b, s[k], init); }
    }
  }

  lemma {:induction false} StaleIsCorrected(b: Books, ids: seq<nat>, id: nat) returns (k: nat)
    requires id in ids && id < |b.items| && FindingAt(b, id) == Some(Mismatch)
    ensures k < |Corrections(b, ids)| && Corrections(b, ids)[k].item == id
  {
    if ids[|ids| - 1] == id {
      k := |Corrections(b, ids[..|ids| - 1])|;
    } else {
      k := StaleIsCorrected(b, ids[..|ids| - 1], id);
    }
  }

  lemma {:induction false} CorrectionIsLatest(b: Books, ids: seq<nat>, id: nat)
    requires Distinct(ids) && id < |b.items| && id in ids && FindingAt(b, id) == Some(Mismatch)
    ensures Latest(b.events + Corrections(b, ids), id) == Some(Correction(b, id))
  {
    var s := Corrections(b, ids);
    var all := b.events + s;
    CorrectionsAreExact(b, ids);
    LatestIsGreatest(b.events, id);
    var k := StaleIsCorrected(b, ids, id);
    assert Corrects(b, s[k], ids);
    assert IsLatest(all, id, |b.events| + k);
    TheLatest(all, id, |b.events| + k);
  }

  /** Events about other items do not change an item's latest. */
  lemma {:induction false} OthersAppended(events: seq<OwedEvent>, s: seq<OwedEvent>, id: nat)
    requires forall k :: 0 <= k < |s| ==> s[k].item != id
    ensures Latest(events + s, id) == Latest(events, id)
  {
    LatestIsGreatest(events, id);
    if Latest(events, id).Some? {
      var i: nat :| IsLatest(events, id, i) && Latest(events, id) == Some(events[i]);
      assert IsLatest(events + s, id, i);
      TheLatest(events + s, id, i);
    } else {
      LatestIsGreatest(events + s, id);
    }
  }

  /** A corrective event becomes its item's latest; every other item keeps its latest event. */
  lemma {:induction false} LatestAfterRepair(b: Books, ids: seq<nat>, id: nat)
    requires Distinct(ids) && id < |b.items|
    ensures Latest(b.events + Corrections(b, ids), id)
         == if id in ids && FindingAt(b, id) == Some(Mismatch) then Some(Correction(b, id)) else Latest(b.events, id)
  {
    if id in ids && FindingAt(b, id) == Some(Mismatch) {
      CorrectionIsLatest(b, ids, id);
    } else {
      var s := Corrections(b, ids);
      CorrectionsAreExact(b, ids);
      forall k | 0 <= k < |s| ensures s[k].item != id { assert Corrects(b, s[k], ids); }
      OthersAppended(b.events, s, id);
    }
  }

  function NotMismatch(): Issue -> bool {
    (i: Issue) => !i.finding.Mismatch?
  }

  lemma {:induction false} MismatchesGo(id: nat, item: Item, latest: Option<OwedEvent>, latest': Option<OwedEvent>)
    requires FindingOf(item, latest) != Some(Mismatch) ==> latest' == latest
    requires FindingOf(item, latest) == Some(Mismatch) ==> FindingOf(item, latest').None?
    ensures IssueFor(id, item, latest') == Keep(NotMismatch(), IssueFor(id, item, latest))
  {
  }

  lemma {:induction false} IssueAfterRepair(b: Books, b': Books, all: seq<nat>, id: nat)
    requires b' == b.(events := b.events + Corrections(b, all)) && Distinct(all) && id in all
    ensures IssueAt(b', id) == Keep(NotMismatch(), IssueAt(b, id))
  {
    if id < |b.items| {
      LatestAfterRepair(b, all, id);
      MismatchesGo(id, b.items[id], Latest(b.events, id), Latest(b'.events, id));
    }
  }

  lemma {:induction false} IssuesAfterRepair(b: Books, b': Books, all: seq<nat>, ids: seq<nat>)
    requires b' == b.(events := b.events + Corrections(b, all)) && Distinct(all)
    requires forall k :: 0 <= k < |ids| ==> ids[k] in all
    ensures IssuesAmong(b', ids) == Keep(NotMismatch(), IssuesAmong(b, ids))
  {
    if |ids| > 0 {
      IssuesAfterRepair(b, b', all, ids[..|ids| - 1]);
      IssueAfterRepair(b, b', all, ids[|ids| - 1]);
      KeepAppend(NotMismatch(), IssuesAmong(b, ids[..|ids| - 1]), IssueAt(b, ids[|ids| - 1]));
    }
  }

  /** The repair removes every mismatch, reports nothing new, and leaves exactly the issues it must not judge. */
  lemma {:induction false} RepairRemovesMismatches(b: Books)
    requires Backfill(b).Ok?
    ensures FindIssues(Backfill(b).value) == Keep(NotMismatch(), FindIssues(b))
  {
    ListedItems(b.items);
    IssuesAfterRepair(b, Backfill(b).value, Listed(b.items), Listed(b.items));
  }

  lemma {:induction false} NothingToCorrect(b: Books, ids: seq<nat>)
    requires forall k :: 0 <= k < |ids| ==> FindingAt(b, ids[k]) != Some(Mismatch)
    ensures Corrections(b, ids) == []
  {
    if |ids| > 0 {
      NothingToCorrect(b, ids[..|ids| - 1]);
    }
  }

  /** Repairing twice is repairing once. */
  lemma {:induction false} RepairIsIdempotent(b: Books)
    requires Backfill(b).Ok?
    ensures Backfill(Backfill(b).value) == Backfill(b)
  {
    var b', ids := Backfill(b).value, Listed(b.items);
    ListedItems(b.items);
    forall k | 0 <= k < |ids| ensures FindingAt(b', ids[k]) != Some(Mismatch) {
      assert ids[k] in ids;
      LatestAfterRepair(b, ids, ids[k]);
    }
    NothingToCorrect(b', ids);
    assert b'.events + [] == b'.events;
  }

  // ---------------------------------------------------------------- replaying the log

  lemma {:induction false} NothingLater(events: seq<OwedEvent>, id: nat, date: int)
    requires forall i :: 0 <= i < |events| ==> events[i].date <= date
    ensures LatestUpTo(events, id, date) == Latest(events, id)
  {
    LastOfAgree(UpTo(events, id, date), AboutItem(events, id), Ascending(events));
  }

  lemma {:induction false} NoEventNothingOwed(events: seq<OwedEvent>, id: nat, date: int)
    requires id !in ItemsOf(events)
    ensures OwedAt(events, date)(id) == 0
  {
    LastOfMembers(UpTo(events, id, date), Ascending(events));
    forall i: nat ensures !UpTo(events, id, date)(i) {
      if i < |events| { assert events[i].item in ItemsOf(events); }
    }
  }

  lemma {:induction false} CleanItemReplays(b: Books, today: int, id: nat)
    requires FindIssues(b) == [] && AllAreListed(b.items) && id < |b.items|
    requires forall i :: 0 <= i < |b.events| ==> b.events[i].date <= today
    requires b.items[id].deleted ==> Latest(b.events, id).Some? && Latest(b.events, id).value.eventType.Deletion?
    ensures OwedAt(b.events, today)(id) == ActiveRemaining(b.items)(id)
  {
    NothingLater(b.events, id, today);
    if !b.items[id].deleted {
      ListedItems(b.items);
      IssuesAreFindings(b, Listed(b.items));
      var k :| 0 <= k < |Listed(b.items)| && Listed(b.items)[k] == id;
      assert FindingAt(b, Listed(b.items)[k]).None?;
    }
  }

  /** An empty report, no event after today, deleted items ending in their deletion, and no more items than the
      listing shows: then replaying the log at today gives the present total. */
  lemma {:induction false} CleanLogReplaysToPresent(b: Books, today: int)
    requires FindIssues(b) == [] && AllAreListed(b.items)
    requires forall i :: 0 <= i < |b.events| ==> b.events[i].date <= today && b.events[i].item < |b.items|
    requires forall i :: 0 <= i < |b.items| && b.items[i].deleted ==>
      Latest(b.events, i).Some? && Latest(b.events, i).value.eventType.Deletion?
    ensures ReplayAt(b.events, today) == ActiveRemainingTotal(b)
  {
    var f, ids := OwedAt(b.events, today), IdSet(|b.items|);
    forall id | id in ids ensures f(id) == ActiveRemaining(b.items)(id) {
      CleanItemReplays(b, today, id);
    }
    SameTerms(ids, f, ActiveRemaining(b.items));
    forall id | id in ids && id !in ItemsOf(b.events) ensures f(id) == 0 {
      NoEventNothingOwed(b.events, id, today);
    }
    forall id | id in ItemsOf(b.events) ensures id in ids { assert Ids(|b.items|)[id] == id; }
    ZeroTerms(ids, ItemsOf(b.events), f);
  }

  // ---------------------------------------------------------------- sound books and the check

  /** Each item's most recently written event also has the latest date. */
  ghost predicate WrittenInDateOrder(events: seq<OwedEvent>) {
    forall i, j :: 0 <= i < j < |events| && events[i].item == events[j].item ==> events[i].date <= events[j].date
  }

  lemma {:induction false} LastWrittenIsLatest(events: seq<OwedEvent>, id: nat)
    requires WrittenInDateOrder(events)
    ensures Latest(events, id) == LastEvent(events, id)
  {
    LatestIsGreatest(events, id);
    if Latest(events, id).Some? {
      var i: nat :| IsLatest(events, id, i) && Latest(events, id) == Some(events[i]);
      forall j | i < j < |events| ensures events[j].item != id { }
      LastEventIs(events, id, i);
    } else {
      NoEventBefore(events, id);
    }
  }

  lemma {:induction false} LastEventIs(events: seq<OwedEvent>, id: nat, i: nat)
    requires i < |events| && events[i].item == id && forall j :: i < j < |events| ==> events[j].item != id
    ensures LastEvent(events, id) == Some(events[i])
  {
    if i < |events| - 1 {
      LastEventIs(events[..|events| - 1], id, i);
    }
  }

  /** In sound books whose events were written in date order the check finds nothing, and if none is in the future
      the log replays to the present total. */
  lemma {:induction false} SoundBooksAreClean(b: Books)
    requires Inv(b) && WrittenInDateOrder(b.events)
    ensures FindIssues(b) == []
    ensures forall i :: 0 <= i < |b.items| && b.items[i].deleted ==>
      Latest(b.events, i).Some? && Latest(b.events, i).value.eventType.Deletion?
  {
    ListedItems(b.items);
    forall id | 0 <= id < |b.items|
      ensures Latest(b.events, id).Some? && Mirrors(Latest(b.events, id).value, b.items[id])
    {
      assert LogMirrors(b, id);
      LastWrittenIsLatest(b.events, id);
    }
    forall k | 0 <= k < |Listed(b.items)| ensures FindingAt(b, Listed(b.items)[k]).None? {
      assert Listed(b.items)[k] in Listed(b.items);
    }
    IssuesAreFindings(b, Listed(b.items));
  }

  /** The last event by date says the same as the last one written. */
  ghost predicate TellsTheSame(events: seq<OwedEvent>, id: nat) {
    var latest, last := Latest(events, id), LastEvent(events, id);
    && latest.Some? && last.Some? && !latest.value.eventType.Deletion?
    && latest.value.remaining == last.value.remaining && latest.value.status == last.value.status
  }

  /** In sound books the report is empty exactly when, for each listed item, the event that is last by date carries the
      remaining amount and status of the one written last, and is no deletion. */
  lemma {:induction false} SoundReportsCompareTwoEvents(b: Books)
    requires Inv(b)
    ensures FindIssues(b) == [] <==> forall k :: 0 <= k < |Listed(b.items)| ==> TellsTheSame(b.events, Listed(b.items)[k])
  {
    IssuesAreFindings(b, Listed(b.items));
    ListedItems(b.items);
    forall k | 0 <= k < |Listed(b.items)|
      ensures FindingAt(b, Listed(b.items)[k]).None? <==> TellsTheSame(b.events, Listed(b.items)[k])
    {
      assert Listed(b.items)[k] in Listed(b.items);
      assert LogMirrors(b, Listed(b.items)[k]);
    }
  }

  // ---------------------------------------------------------------- which commands make an item reported

  /** The events from position `n` on that are about the item carry the date. */
  ghost predicate DatedFrom(events: seq<OwedEvent>, n: nat, id: nat, date: int) {
    forall j :: n <= j < |events| && events[j].item == id ==> events[j].date == date
  }

  /** What the check compares has changed. */
  predicate Restates(before: Item, after: Item) {
    after.remaining != before.remaining || after.status != before.status
  }

  lemma {:induction false} WrittenLast(events: seq<OwedEvent>, id: nat) returns (m: nat)
    requires LastEvent(events, id).Some?
    ensures m < |events| && events[m].item == id && LastEvent(events, id) == Some(events[m])
    ensures forall j :: m < j < |events| ==> events[j].item != id
  {
    m := |events| - 1;
    if events[m].item != id {
      m := WrittenLast(events[..m], id);
    }
  }

  lemma {:induction false} NothingWritten(s: seq<OwedEvent>, t: seq<OwedEvent>, id: nat)
    requires s <= t && forall j :: |s| <= j < |t| ==> t[j].item != id
    ensures LastEvent(t, id) == LastEvent(s, id)
  {
    if |s| < |t| {
      NothingWritten(s, t[..|t| - 1], id);
    } else {
      assert s == t;
    }
  }

  ghost predicate WrittenSince(s: seq<OwedEvent>, t: seq<OwedEvent>, id: nat) {
    exists j :: |s| <= j < |t| && t[j].item == id
  }

  /** Later events of one date become the latest exactly when that date is not before the latest so far. */
  lemma {:induction false} LatestAfterWriting(s: seq<OwedEvent>, t: seq<OwedEvent>, id: nat, date: int)
    requires s <= t && Latest(s, id).Some? && LastEvent(t, id).Some? && DatedFrom(t, |s|, id, date)
    ensures Latest(t, id) ==
      if WrittenSince(s, t, id) && date >= Latest(s, id).value.date then LastEvent(t, id) else Latest(s, id)
  {
    LatestIsGreatest(s, id);
    var l: nat :| IsLatest(s, id, l) && Latest(s, id) == Some(s[l]);
    if WrittenSince(s, t, id) && date >= Latest(s, id).value.date {
      var m := WrittenLast(t, id);
      assert IsLatest(t, id, m);
      TheLatest(t, id, m);
    } else {
      assert IsLatest(t, id, l);
      TheLatest(t, id, l);
    }
  }

  /** `b'` has written on from `b`; what it wrote about the item carries the date, and in both the last event written
      mirrors the item, which is visible. */
  ghost predicate WroteOn(b: Books, b': Books, id: nat, date: int) {
    && b.events <= b'.events && id < |b.items| <= |b'.items| && !b.items[id].deleted && !b'.items[id].deleted
    && DatedFrom(b'.events, |b.events|, id, date) && LogMirrors(b, id) && LogMirrors(b', id)
  }

  /** An item that is not reported becomes so exactly when what the check compares has changed and the change was
      written under a date before that of the item's latest event. */
  lemma {:induction false} ReportedWhenBackdated(b: Books, b': Books, id: nat, date: int)
    requires WroteOn(b, b', id, date) && FindingAt(b, id).None?
    ensures Latest(b.events, id).Some?
    ensures FindingAt(b', id).Some? <==>
      Restates(b.items[id], b'.items[id]) && date < Latest(b.events, id).value.date
  {
    LatestAfterWriting(b.events, b'.events, id, date);
    if !WrittenSince(b.events, b'.events, id) { NothingWritten(b.events, b'.events, id); }
  }

  lemma {:induction false} SoundStepsWriteOn(b: Books, b': Books, edited: Option<nat>, id: nat, date: int)
    requires Inv(b) && Inv(b') && Follows(b, b', edited) && Visible(b, id) && |b'.items| == |b.items|
    requires b'.items[id].deleted == b.items[id].deleted && DatedFrom(b'.events, |b.events|, id, date)
    ensures WroteOn(b, b', id, date)
  {
  }

  ghost predicate AllDatedFrom(events: seq<OwedEvent>, n: nat, date: int) {
    forall j :: n <= j < |events| ==> events[j].date == date
  }

  lemma {:induction false} GrantsAreDated(b: Books, payment: nat, s: seq<Requested>, left: int, today: int)
    requires payment in b.payments && RequestedExist(b, s) && ApplyRequested(b, payment, s, left, today).Ok?
    ensures AllDatedFrom(ApplyRequested(b, payment, s, left, today).value.events, |b.events|, b.payments[payment].date)
    decreases |s|
  {
    if |s| > 0 {
      var b1 := Allocate(b, payment, s[0].item, s[0].amount, left, today).value;
      GrantsAreDated(b1, payment, s[1..], left - s[0].amount, today);
      GrantsOnlyAppend(b1, payment, s[1..], left - s[0].amount, today);
    }
  }

  lemma {:induction false} GrantsOnlyAppend(b: Books, payment: nat, s: seq<Requested>, left: int, today: int)
    requires payment in b.payments && RequestedExist(b, s) && ApplyRequested(b, payment, s, left, today).Ok?
    ensures b.events <= ApplyRequested(b, payment, s, left, today).value.events
    decreases |s|
  {
    if |s| > 0 {
      GrantsOnlyAppend(Allocate(b, payment, s[0].item, s[0].amount, left, today).value, payment, s[1..],
                       left - s[0].amount, today);
    }
  }

  /** Every event a payment writes carries its date. */
  lemma {:induction false} PaymentsAreDated(b: Books, p: PaymentDraft, today: int)
    requires Inv(b) && RecordPayment(b, p, today).Ok?
    ensures AllDatedFrom(RecordPayment(b, p, today).value.events, |b.events|, p.date)
  {
    var named := Relabelled(b, p.person, today);
    OwedMoves.RelabelKeeps(b, p.person, today);
    var paid := WithPayment(named, p);
    if |p.requested| > 0 {
      ValidatedItemsExist(named, p.person, p.amount, p.requested);
      GrantsAreDated(paid, b.nextPayment, p.requested, p.amount, today);
    } else {
      var due := Due(named, p);
      DueItems(named, p);
      StandingBooks(named);
      PlanFits(named, due, p.amount);
      OldestFirst(named.items, p.person);
      OpenItemsExist(named.items, p.person);
      WaterfallFollowsPlan(paid, b.nextPayment, ListOpenByPerson(named.items, p.person), p.stopBefore, p.amount, today);
      GrantsAreDated(paid, b.nextPayment, Plan(named.items, due, p.amount), p.amount, today);
    }
  }

  lemma {:induction false} PaymentsWriteOn(b: Books, p: PaymentDraft, today: int, id: nat)
    requires Inv(b) && RecordPayment(b, p, today).Ok? && Visible(b, id)
    ensures var b' := RecordPayment(b, p, today).value;
      WroteOn(b, b', id, p.date) && (Restates(b.items[id], b'.items[id]) <==> id in ItemsAmong(GrantsOf(b, p)))
  {
    var s := GrantsOf(b, p);
    PaymentsAreDated(b, p, today);
    OwedHistory.StepKeeps(b, OwedHistory.Op(OwedHistory.Pay(p), 0, today));
    PaymentSettlesGrants(b, p, today);
    RequestedIsPositive(id, s);
    assert id in ItemsAmong(s) <==> exists k :: 0 <= k < |s| && s[k].item == id;
    SoundStepsWriteOn(b, RecordPayment(b, p, today).value, None, id, p.date);
  }

  /** A payment makes an item reported exactly when it reaches the item and is dated before the item's latest event. */
  lemma {:induction false} PaymentsReportWhenBackdated(b: Books, p: PaymentDraft, today: int, id: nat)
    requires Inv(b) && RecordPayment(b, p, today).Ok? && Visible(b, id) && FindingAt(b, id).None?
    ensures Latest(b.events, id).Some?
    ensures FindingAt(RecordPayment(b, p, today).value, id).Some? <==>
      id in ItemsAmong(GrantsOf(b, p)) && p.date < Latest(b.events, id).value.date
  {
    PaymentsWriteOn(b, p, today, id);
    ReportedWhenBackdated(b, RecordPayment(b, p, today).value, id, p.date);
  }

  lemma {:induction false} ReversalsAreDated(b: Books, s: seq<Allocation>, today: int)
    requires ReverseAll(b, s, today).Ok?
    ensures b.events <= ReverseAll(b, s, today).value.events
    ensures AllDatedFrom(ReverseAll(b, s, today).value.events, |b.events|, today)
    decreases |s|
  {
    if |s| > 0 {
      ReversalsAreDated(ReverseOne(b, s[0], today).value, s[1..], today);
    }
  }

  lemma {:induction false} ReversedItems(b: Books, payment: nat, today: int, id: nat)
    requires Inv(b) && DeletePayment(b, payment, today).Ok? && id < |b.items|
    ensures var b' := DeletePayment(b, payment, today).value;
      && |b'.items| == |b.items| && b'.items[id].deleted == b.items[id].deleted
      && (Restates(b.items[id], b'.items[id]) <==> id in ItemsPaidBy(b, payment))
  {
    OwedReversal.SteadyBooks(b);
    OwedReversal.DeletionGivesBack(b, payment, today);
    PaidItemsAreAllocated(b, payment, id);
  }

  lemma {:induction false} ReversalsWriteOn(b: Books, payment: nat, today: int, id: nat)
    requires Inv(b) && DeletePayment(b, payment, today).Ok? && Visible(b, id)
    ensures WroteOn(b, DeletePayment(b, payment, today).value, id, today)
  {
    ReversalsAreDated(b, Keep(OfPayment(payment), b.allocations), today);
    OwedHistory.StepKeeps(b, OwedHistory.Op(OwedHistory.Reverse(payment), 0, today));
    ReversedItems(b, payment, today, id);
    SoundStepsWriteOn(b, DeletePayment(b, payment, today).value, None, id, today);
  }

  /** A reversal makes an item reported exactly when the payment was allocated to it and the item's latest event is dated
      after today. */
  lemma {:induction false} ReversalsReportWhenBackdated(b: Books, payment: nat, today: int, id: nat)
    requires Inv(b) && DeletePayment(b, payment, today).Ok? && Visible(b, id) && FindingAt(b, id).None?
    ensures Latest(b.events, id).Some?
    ensures FindingAt(DeletePayment(b, payment, today).value, id).Some? <==>
      id in ItemsPaidBy(b, payment) && today < Latest(b.events, id).value.date
  {
    ReversalsWriteOn(b, payment, today, id);
    ReversedItems(b, payment, today, id);
    ReportedWhenBackdated(b, DeletePayment(b, payment, today).value, id, today);
  }

  /** The remaining amount and status a patch asks for. */
  function PatchedRemaining(item: Item, p: ItemPatch): int {
    p.total.GetOr(item.total) - p.paid.GetOr(item.paid)
  }

  function PatchedStatus(item: Item, p: ItemPatch): Status {
    p.status.GetOr(CalculateStatus(p.paid.GetOr(item.paid), PatchedRemaining(item, p)))
  }

  /** An update makes an item reported exactly when it is the one updated, its remaining amount or status changes, and
      its latest event is dated after today. */
  lemma {:induction false} UpdatesReportWhenBackdated(b: Books, updated: nat, p: ItemPatch, today: int, id: nat)
    requires Inv(b) && UpdateItem(b, updated, p, today).Ok? && Visible(b, id) && FindingAt(b, id).None?
    ensures Latest(b.events, id).Some?
    ensures FindingAt(UpdateItem(b, updated, p, today).value, id).Some? <==>
      && id == updated && today < Latest(b.events, id).value.date
      && (PatchedRemaining(b.items[id], p) != b.items[id].remaining || PatchedStatus(b.items[id], p) != b.items[id].status)
  {
    var b' := UpdateItem(b, updated, p, today).value;
    UpdateKeeps(b, updated, p, today);
    SoundStepsWriteOn(b, b', Some(updated), id, today);
    ReportedWhenBackdated(b, b', id, today);
  }

  lemma {:induction false} LastEventOfBoth(s: seq<OwedEvent>, t: seq<OwedEvent>, id: nat)
    ensures LastEvent(s + t, id) == if LastEvent(t, id).Some? then LastEvent(t, id) else LastEvent(s, id)
    ensures LastEvent(t, id).Some? ==> LastEvent(t, id).value in t && LastEvent(t, id).value.item == id
  {
    if |t| == 0 {
      assert s + t == s;
    } else {
      assert (s + t)[..|s + t| - 1] == s + t[..|t| - 1];
      LastEventOfBoth(s, t[..|t| - 1], id);
    }
  }

  lemma {:induction false} CorrectionsMirror(b: Books, ids: seq<nat>, k: nat)
    requires Inv(b) && ids == Listed(b.items) && k < |Corrections(b, ids)|
    ensures var e := Corrections(b, ids)[k];
      e.item < |b.items| && Mirrors(e, b.items[e.item]) && EventChecks(e)
  {
    ListedItems(b.items);
    CorrectionsAreExact(b, ids);
    assert Corrects(b, Corrections(b, ids)[k], ids);
    assert ItemBalances(b.items[Corrections(b, ids)[k].item]);
  }

  /** On sound books the repair always goes through and leaves them sound. */
  lemma {:induction false} RepairIsSound(b: Books)
    requires Inv(b)
    ensures Backfill(b).Ok? && Inv(Backfill(b).value) && Follows(b, Backfill(b).value, None)
  {
    var s := Corrections(b, Listed(b.items));
    forall k | 0 <= k < |s| ensures EventChecks(s[k]) && s[k].item < |b.items| && Mirrors(s[k], b.items[s[k].item]) {
      CorrectionsMirror(b, Listed(b.items), k);
    }
    var b' := b.(events := b.events + s);
    forall id | 0 <= id < |b'.items| ensures LogMirrors(b', id) {
      assert LogMirrors(b, id);
      LastEventOfBoth(b.events, s, id);
    }
    SameReferences(b, b');
    SameAllocations(b, b');
  }

  const DUE_LATER_EDITED_NOW := [
    OwedHistory.Op(OwedHistory.Create(ItemDraft("Ana", 500, 0, Some(100), None, "manual", None)), 0, 10),
    OwedHistory.Op(OwedHistory.Update(0, ItemPatch(None, None, Some(200), None, Unset, Unset)), 0, 10)]

  lemma {:induction false} OneItemIsListed(items: seq<Item>)
    requires |items| == 1 && !items[0].deleted
    ensures 0 in Listed(items)
  {
    VisibleOnce(items);
    ListedItems(items);
    var all := SortBy(NewestFirst(items), Keep(VisibleIds(items), Ids(|items|)));
    SortSorts(NewestFirst(items), Keep(VisibleIds(items), Ids(|items|)));
    KeepMembers(VisibleIds(items), Ids(|items|));
    assert |all| == |multiset(all)| <= 1;
  }

  lemma {:induction false} EditedBooks()
    ensures var b := OwedHistory.Run(EMPTY_BOOKS, DUE_LATER_EDITED_NOW);
      && |b.items| == 1 && !b.items[0].deleted && b.items[0].remaining == 300 && |b.events| == 2
      && b.events[0].item == 0 && b.events[0].date == 100 && b.events[0].remaining == 500
      && b.events[0].eventType.Created? && b.events[1].date == 10
  {
    var ops, first := DUE_LATER_EDITED_NOW, DUE_LATER_EDITED_NOW[..1];
    assert first[..|first| - 1] == [] && ops[..|ops| - 1] == first;
    assert OwedHistory.Run(EMPTY_BOOKS, first[..|first| - 1]) == EMPTY_BOOKS;
    var b1 := OwedHistory.Run(EMPTY_BOOKS, first);
    assert b1 == OwedHistory.After(EMPTY_BOOKS, ops[0]);
    assert OwedHistory.Run(EMPTY_BOOKS, ops) == OwedHistory.After(b1, ops[1]);
  }

  /** Sound books can be reported: an item created with a future due date and then edited is, because its creation event
      still sorts last. */
  lemma {:induction false} SoundBooksCanBeReported()
    ensures var b := OwedHistory.Run(EMPTY_BOOKS, DUE_LATER_EDITED_NOW); Inv(b) && FindIssues(b) != []
  {
    var b := OwedHistory.Run(EMPTY_BOOKS, DUE_LATER_EDITED_NOW);
    OwedHistory.EveryReachableStateIsSound(DUE_LATER_EDITED_NOW);
    EditedBooks();
    assert IsLatest(b.events, 0, 0);
    TheLatest(b.events, 0, 0);
    OneItemIsListed(b.items);
    IssuesAreFindings(b, Listed(b.items));
    assert FindingAt(b, 0) == Some(Mismatch);
  }
}
