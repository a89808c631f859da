/** The wealth summary and the monthly history, computed in one sweep, against the simple definition. */
module WealthHistory {
  import opened Outcomes
  import opened Ordering
  import opened Totals
  import opened OwedBooks
  import opened OwedPayments
  import opened OwedIntegrity
  import opened OwedIntegrityLaws

  // ---------------------------------------------------------------- calendar

  /** Dates are year * 10000 + month * 100 + day, months are year * 100 + month. */
  function MonthOf(date: int): nat {
    if date < 0 then 0 else date / 100
  }

  predicate IsLeapYear(year: int) {
    year % 4 == 0 && (year % 100 != 0 || year % 400 == 0)
  }

  function DaysIn(month: nat): int {
    match month % 100
    case 2 => if IsLeapYear(month / 100) then 29 else 28
    case 4 => 30
    case 6 => 30
    case 9 => 30
    case 11 => 30
    case _ => 31
  }

  predicate IsDate(date: int) {
    date > 0 && 1 <= MonthOf(date) % 100 <= 12 && 1 <= date % 100 <= DaysIn(MonthOf(date))
  }

  /** The last day of the month, or today in the current month. */
  function ValuationDate(month: nat, today: int): int {
    if month == MonthOf(today) then today else month * 100 + DaysIn(month)
  }

  /** A later month is valued on a later date. */
  lemma {:induction false} ValuationAdvances(m: nat, n: nat, today: int)
    requires IsDate(today) && m < n
    ensures MonthOf(ValuationDate(m, today)) == m
    ensures ValuationDate(m, today) < ValuationDate(n, today)
  {
  }

  /** Being dated in a month or before it is being dated up to its last day. */
  lemma {:induction false} MonthEndCovers(date: int, month: nat, today: int)
    requires IsDate(date) && IsDate(today) && month != MonthOf(today)
    ensures date <= ValuationDate(month, today) <==> MonthOf(date) <= month
  {
  }

  // ---------------------------------------------------------------- snapshots

  datatype Snapshot = Snapshot(account: nat, date: int, balance: int)

  function SnapshotRank(s: seq<Snapshot>): nat -> Rank {
    (i: nat) => Rank(if i < |s| then s[i].date else 0, i)
  }

  /** The positions of the table's rows in (date, id) order. */
  function InOrder(s: seq<Snapshot>): seq<nat> {
    SortBy(SnapshotRank(s), Ids(|s|))
  }

  function OfAccount(s: seq<Snapshot>, account: nat): nat -> bool {
    (i: nat) => i < |s| && s[i].account == account
  }

  function InMonth(s: seq<Snapshot>, month: nat): nat -> bool {
    (i: nat) => i < |s| && MonthOf(s[i].date) == month
  }

  function ByMonth(s: seq<Snapshot>, month: nat): nat -> bool {
    (i: nat) => i < |s| && MonthOf(s[i].date) <= month
  }

  function AccountUpTo(s: seq<Snapshot>, account: nat, date: int): nat -> bool {
    (i: nat) => i < |s| && s[i].account == account && s[i].date <= date
  }

  function BalanceOf(s: seq<Snapshot>, i: Option<nat>): int {
    if i.Some? && i.value < |s| then s[i.value].balance else 0
  }

  ghost function AccountsOf(s: seq<Snapshot>): set<nat> {
    set i | 0 <= i < |s| :: s[i].account
  }

  /** An account's balance on a date: that of its last snapshot on or before it. */
  function BalanceAt(s: seq<Snapshot>, date: int): nat -> int {
    (account: nat) => BalanceOf(s, LastOf(AccountUpTo(s, account, date), InOrder(s)))
  }

  function LatestBalance(s: seq<Snapshot>): nat -> int {
    (account: nat) => BalanceOf(s, LastOf(OfAccount(s, account), InOrder(s)))
  }

  /** The simple definition of what the non-derived accounts hold on a date, and of what they hold at last. */
  ghost function BalancesAt(s: seq<Snapshot>, derived: set<nat>, date: int): int {
    SumOver(AccountsOf(s) - derived, BalanceAt(s, date))
  }

  ghost function LatestBalances(s: seq<Snapshot>, derived: set<nat>): int {
    SumOver(AccountsOf(s) - derived, LatestBalance(s))
  }

  lemma {:induction false} InOrderHoldsAll(s: seq<Snapshot>)
    ensures forall i: nat :: i in InOrder(s) <==> i < |s|
    ensures Ordered(SnapshotRank(s), InOrder(s))
  {
    SortSorts(SnapshotRank(s), Ids(|s|));
    forall i: nat ensures i in InOrder(s) <==> i < |s| {
      assert i in InOrder(s) <==> i in multiset(Ids(|s|));
      if i < |s| { assert Ids(|s|)[i] == i; }
    }
  }

  /** The table after overwriting each account's entry with the snapshots at `order`. */
  ghost predicate HoldsAccount(latest: map<nat, Snapshot>, s: seq<Snapshot>, order: seq<nat>, account: nat) {
    match LastOf<nat>(OfAccount(s, account), order)
    case Some(i) => i < |s| && account in latest && latest[account] == s[i]
    case None => account !in latest
  }

  ghost predicate HoldsAccounts(latest: map<nat, Snapshot>, s: seq<Snapshot>, order: seq<nat>) {
    forall account: nat :: HoldsAccount(latest, s, order, account)
  }

  lemma {:induction false} OverwriteAccount(latest: map<nat, Snapshot>, s: seq<Snapshot>, order: seq<nat>, i: nat)
    requires HoldsAccounts(latest, s, order) && i < |s|
    ensures HoldsAccounts(latest[s[i].account := s[i]], s, order + [i])
  {
    var latest' := latest[s[i].account := s[i]];
    forall account: nat ensures HoldsAccount(latest', s, order + [i], account) {
      LastOfAppend(OfAccount(s, account), order, i);
      assert HoldsAccount(latest, s, order, account);
    }
  }

  /** Walk snapshots in order, overwriting each account's entry. */
  method OverwriteAll(start: map<nat, Snapshot>, s: seq<Snapshot>, ghost before: seq<nat>, rows: seq<nat>)
    returns (latest: map<nat, Snapshot>)
    requires HoldsAccounts(start, s, before) && forall k :: 0 <= k < |rows| ==> rows[k] < |s|
    ensures HoldsAccounts(latest, s, before + rows)
  {
    latest := start;
    assert before + rows[..0] == before;
    for k := 0 to |rows|
      invariant HoldsAccounts(latest, s, before + rows[..k])
    {
      OverwriteAccount(latest, s, before + rows[..k], rows[k]);
      assert before + rows[..k + 1] == before + rows[..k] + [rows[k]];
      latest := latest[s[rows[k]].account := s[rows[k]]];
    }
    assert rows[..|rows|] == rows;
  }

  method GetLatestSnapshotByAccount(s: seq<Snapshot>) returns (latest: map<nat, Snapshot>)
    ensures HoldsAccounts(latest, s, InOrder(s))
  {
    InOrderHoldsAll(s);
    forall k | 0 <= k < |InOrder(s)| ensures InOrder(s)[k] < |s| { assert InOrder(s)[k] in InOrder(s); }
    latest := OverwriteAll(map[], s, [], InOrder(s));
    assert [] + InOrder(s) == InOrder(s);
  }

  function BalanceIn(latest: map<nat, Snapshot>): nat -> int {
    (account: nat) => if account in latest then latest[account].balance else 0
  }

  /** Add up the entries of the accounts that are not derived, in any order. */
  method SumBalances(latest: map<nat, Snapshot>, derived: set<nat>) returns (total: int)
    ensures total == SumOver(latest.Keys - derived, BalanceIn(latest))
  {
    total := 0;
    var keys := latest.Keys - derived;
    while keys != {}
      invariant keys <= latest.Keys
      invariant total + SumOver(keys, BalanceIn(latest)) == SumOver(latest.Keys - derived, BalanceIn(latest))
      decreases |keys|
    {
      var account :| account in keys;
      TakeOut(keys, BalanceIn(latest), account);
      total := total + latest[account].balance;
      keys := keys - {account};
    }
  }

  /** Summing the table is summing the balances it stands for. */
  lemma {:induction false} TableSum(latest: map<nat, Snapshot>, s: seq<Snapshot>, order: seq<nat>, derived: set<nat>,
                                    f: nat -> int)
    requires HoldsAccounts(latest, s, order) && forall k :: 0 <= k < |order| ==> order[k] < |s|
    requires forall account: nat :: f(account) == BalanceOf(s, LastOf(OfAccount(s, account), order))
    ensures SumOver(latest.Keys - derived, BalanceIn(latest)) == SumOver(AccountsOf(s) - derived, f)
  {
    var all, some := AccountsOf(s) - derived, latest.Keys - derived;
    forall account: nat | account in latest.Keys ensures account in AccountsOf(s) {
      assert HoldsAccount(latest, s, order, account);
      LastOfMembers(OfAccount(s, account), order);
    }
    forall account: nat ensures f(account) == BalanceIn(latest)(account) {
      assert HoldsAccount(latest, s, order, account);
    }
    SameTerms(some, BalanceIn(latest), f);
    ZeroTerms(all, some, f);
  }

  // ---------------------------------------------------------------- owed events

  ghost predicate HoldsItem(latest: map<nat, OwedEvent>, events: seq<OwedEvent>, order: seq<nat>, id: nat) {
    match LastOf<nat>(AboutItem(events, id), order)
    case Some(i) => i < |events| && id in latest && latest[id] == events[i]
    case None => id !in latest
  }

  ghost predicate HoldsItems(latest: map<nat, OwedEvent>, events: seq<OwedEvent>, order: seq<nat>) {
    forall id: nat :: HoldsItem(latest, events, order, id)
  }

  lemma {:induction false} OverwriteItem(latest: map<nat, OwedEvent>, events: seq<OwedEvent>, order: seq<nat>, i: nat)
    requires HoldsItems(latest, events, order) && i < |events|
    ensures HoldsItems(latest[events[i].item := events[i]], events, order + [i])
  {
    var latest' := latest[events[i].item := events[i]];
    forall id: nat ensures HoldsItem(latest', events, order + [i], id) {
      LastOfAppend(AboutItem(events, id), order, i);
      assert HoldsItem(latest, events, order, id);
    }
  }

  function OwedIn(latest: map<nat, OwedEvent>): nat -> int {
    (id: nat) => if id in latest then StillOwed(Some(latest[id])) else 0
  }

  method SumOwed(latest: map<nat, OwedEvent>) returns (total: int)
    ensures total == SumOver(latest.Keys, OwedIn(latest))
  {
    total := 0;
    var keys := latest.Keys;
    while keys != {}
      invariant keys <= latest.Keys
      invariant total + SumOver(keys, OwedIn(latest)) == SumOver(latest.Keys, OwedIn(latest))
      decreases |keys|
    {
      var id :| id in keys;
      TakeOut(keys, OwedIn(latest), id);
      var e := latest[id];
      if !e.eventType.Deletion? && IsActive(e.status) {
        total := total + e.remaining;
      }
      keys := keys - {id};
    }
  }

  function DatedUpTo(events: seq<OwedEvent>, date: int): nat -> bool {
    (i: nat) => i < |events| && events[i].date <= date
  }

  /** When the table has seen exactly the events up to a date, its sum is the replay at that date. */
  lemma {:induction false} OwedSum(latest: map<nat, OwedEvent>, events: seq<OwedEvent>, date: int)
    requires HoldsItems(latest, events, Keep(DatedUpTo(events, date), Ascending(events)))
    ensures SumOver(latest.Keys, OwedIn(latest)) == ReplayAt(events, date)
  {
    var order := Keep(DatedUpTo(events, date), Ascending(events));
    forall id: nat ensures OwedAt(events, date)(id) == OwedIn(latest)(id) {
      LastOfKept(AboutItem(events, id), DatedUpTo(events, date), UpTo(events, id, date), Ascending(events));
      assert HoldsItem(latest, events, order, id);
    }
    forall id: nat | id in latest.Keys ensures id in ItemsOf(events) {
      assert HoldsItem(latest, events, order, id);
      LastOfMembers(AboutItem(events, id), order);
    }
    SameTerms(latest.Keys, OwedIn(latest), OwedAt(events, date));
    ZeroTerms(ItemsOf(events), latest.Keys, OwedAt(events, date));
  }

  // ---------------------------------------------------------------- the sweep

  datatype Row = Row(month: nat, total: int, investment: int)

  /** What the service reads: its own tables, the derived accounts, the investment values and the present owed total. */
  datatype Inputs = Inputs(
    snapshots: seq<Snapshot>, derived: set<nat>, investments: map<nat, int>, investmentMonths: set<nat>,
    events: seq<OwedEvent>, owedNow: int)

  function Invested(inputs: Inputs, month: nat): int {
    if month in inputs.investments then inputs.investments[month] else 0
  }

  predicate DatesAreValid(inputs: Inputs) {
    && (forall i | 0 <= i < |inputs.snapshots| :: IsDate(inputs.snapshots[i].date))
    && (forall i | 0 <= i < |inputs.events| :: IsDate(inputs.events[i].date))
  }

  function SnapshotMonths(s: seq<Snapshot>): set<nat> {
    set i | 0 <= i < |s| :: MonthOf(s[i].date)
  }

  function EventMonths(s: seq<OwedEvent>): set<nat> {
    set i | 0 <= i < |s| :: MonthOf(s[i].date)
  }

  /** The months with anything to show, and then always the current one. */
  function AllMonths(inputs: Inputs, today: int): set<nat> {
    var months := SnapshotMonths(inputs.snapshots) + inputs.investmentMonths + EventMonths(inputs.events);
    if months == {} then {} else months + {MonthOf(today)}
  }

  /** A month's row by the simple definition; the current month instead takes the present totals. */
  ghost function RowOf(inputs: Inputs, month: nat, today: int): Row {
    var date := ValuationDate(month, today);
    var held := if date == today then LatestBalances(inputs.snapshots, inputs.derived)
                else BalancesAt(inputs.snapshots, inputs.derived, date);
    var owed := if date == today then inputs.owedNow else ReplayAt(inputs.events, date);
    Row(month, held + Invested(inputs, month) + owed, Invested(inputs, month))
  }

  /** What the summary shows besides investments. */
  ghost function HeldNow(inputs: Inputs): int {
    LatestBalances(inputs.snapshots, inputs.derived) + inputs.owedNow
  }

  ghost predicate Ascends(s: seq<nat>) {
    forall i, j :: 0 <= i < j < |s| ==> s[i] < s[j]
  }

  function InsertMonth(month: nat, s: seq<nat>): (r: seq<nat>)
    requires Ascends(s) && month !in s
    ensures Ascends(r) && forall m: nat :: m in r <==> m == month || m in s
  {
    if |s| == 0 || month < s[0] then [month] + s
    else
      var rest := InsertMonth(month, s[1..]);
      assert s == [s[0]] + s[1..];
      assert forall k :: 0 <= k < |rest| ==> rest[k] in rest;
      [s[0]] + rest
  }

  method SortMonths(months: set<nat>) returns (sorted: seq<nat>)
    ensures Ascends(sorted) && forall m: nat :: m in sorted <==> m in months
  {
    sorted := [];
    var rest := months;
    while rest != {}
      invariant rest <= months && Ascends(sorted)
      invariant forall m: nat :: m in sorted <==> m in months && m !in rest
      decreases |rest|
    {
      var m :| m in rest;
      sorted := InsertMonth(m, sorted);
      rest := rest - {m};
    }
  }

  ghost predicate Grouped(groups: map<nat, seq<nat>>, s: seq<Snapshot>, order: seq<nat>, month: nat) {
    Keep<nat>(InMonth(s, month), order) == if month in groups then groups[month] else []
  }

  ghost predicate AllGrouped(groups: map<nat, seq<nat>>, s: seq<Snapshot>, order: seq<nat>) {
    forall month: nat :: Grouped(groups, s, order, month)
  }

  lemma {:induction false} GroupOneMore(groups: map<nat, seq<nat>>, s: seq<Snapshot>, order: seq<nat>, i: nat)
    requires AllGrouped(groups, s, order) && i < |s|
    ensures var month := MonthOf(s[i].date);
      AllGrouped(groups[month := (if month in groups then groups[month] else []) + [i]], s, order + [i])
  {
    var month := MonthOf(s[i].date);
    var groups' := groups[month := (if month in groups then groups[month] else []) + [i]];
    forall m: nat ensures Grouped(groups', s, order + [i], m) {
      assert Grouped(groups, s, order, m);
      KeepAppend<nat>(InMonth(s, m), order, [i]);
      KeepOne<nat>(InMonth(s, m), i);
    }
  }

  /** The snapshots of each month, in order. */
  method GroupByMonth(s: seq<Snapshot>) returns (groups: map<nat, seq<nat>>)
    ensures AllGrouped(groups, s, InOrder(s))
  {
    var order: seq<nat> := InOrder(s);
    InOrderHoldsAll(s);
    groups := map[];
    for k := 0 to |order|
      invariant AllGrouped(groups, s, order[..k])
    {
      assert order[k] in order && order[..k + 1] == order[..k] + [order[k]];
      GroupOneMore(groups, s, order[..k], order[k]);
      var month := MonthOf(s[order[k]].date);
      groups := groups[month := (if month in groups then groups[month] else []) + [order[k]]];
    }
    assert order[..|order|] == order;
  }

  /** The snapshots up to a month are those up to the previous listed month, then those of the month. */
  lemma {:induction false} MonthByMonth(s: seq<Snapshot>, months: seq<nat>, j: nat)
    requires Ascends(months) && j < |months|
    requires forall i :: 0 <= i < |s| ==> MonthOf(s[i].date) in months
    ensures Keep(ByMonth(s, months[j]), InOrder(s))
         == (if j == 0 then [] else Keep(ByMonth(s, months[j - 1]), InOrder(s))) + Keep(InMonth(s, months[j]), InOrder(s))
  {
    var low := if j == 0 then (i: nat) => false else ByMonth(s, months[j - 1]);
    InOrderHoldsAll(s);
    forall x | x in InOrder(s)
      ensures (ByMonth(s, months[j])(x) <==> low(x) || InMonth(s, months[j])(x)) && !(low(x) && InMonth(s, months[j])(x))
    {
      var i :| 0 <= i < |months| && months[i] == MonthOf(s[x].date);
      assert i < j ==> months[i] <= months[j - 1];
    }
    LowThenHigh(SnapshotRank(s), low, InMonth(s, months[j]), ByMonth(s, months[j]), InOrder(s));
    if j == 0 {
      KeepNone(low, InOrder(s));
    }
  }

  /** In a month that is not the current one, the snapshots up to the month are those up to its valuation date. */
  lemma {:induction false} MonthIsDate(s: seq<Snapshot>, month: nat, today: int, account: nat)
    requires IsDate(today) && month != MonthOf(today) && forall i :: 0 <= i < |s| ==> IsDate(s[i].date)
    ensures LastOf<nat>(OfAccount(s, account), Keep<nat>(ByMonth(s, month), InOrder(s)))
         == LastOf<nat>(AccountUpTo(s, account, ValuationDate(month, today)), InOrder(s))
  {
    var order: seq<nat> := InOrder(s);
    forall k | 0 <= k < |order|
      ensures AccountUpTo(s, account, ValuationDate(month, today))(order[k])
         <==> OfAccount(s, account)(order[k]) && ByMonth(s, month)(order[k])
    {
      if order[k] < |s| { MonthEndCovers(s[order[k]].date, month, today); }
    }
    LastOfKept<nat>(OfAccount(s, account), ByMonth(s, month), AccountUpTo(s, account, ValuationDate(month, today)), order);
  }

  /** Move the index over the events dated up to the valuation date. */
  method AdvanceEvents(events: seq<OwedEvent>, start: nat, table: map<nat, OwedEvent>, date: int)
    returns (index: nat, latest: map<nat, OwedEvent>)
    requires start <= |Ascending(events)| && HoldsItems(table, events, Ascending(events)[..start])
    requires AllDatedUpTo(events, Ascending(events)[..start], date)
    ensures index <= |Ascending(events)| && HoldsItems(latest, events, Ascending(events)[..index])
    ensures Ascending(events)[..index] == Keep(DatedUpTo(events, date), Ascending(events))
    ensures AllDatedUpTo(events, Ascending(events)[..index], date)
  {
    var order: seq<nat> := Ascending(events);
    index, latest := start, table;
    AscendingHoldsAll(events);
    forall k | 0 <= k < |order| ensures order[k] < |events| { assert order[k] in order; }
    while index < |order| && events[order[index]].date <= date
      invariant start <= index <= |order| && HoldsItems(latest, events, order[..index])
      invariant AllDatedUpTo(events, order[..index], date)
    {
      OverwriteItem(latest, events, order[..index], order[index]);
      assert order[..index + 1] == order[..index] + [order[index]];
      latest := latest[events[order[index]].item := events[order[index]]];
      index := index + 1;
    }
    EventsUpTo(events, order, index, date);
  }

  /** Where the index stops, everything before it is dated up to the date and everything from it on is later. */
  lemma {:induction false} EventsUpTo(events: seq<OwedEvent>, order: seq<nat>, index: nat, date: int)
    requires order == Ascending(events) && index <= |order|
    requires AllDatedUpTo(events, order[..index], date)
    requires index < |order| ==> order[index] < |events| && events[order[index]].date > date
    ensures order[..index] == Keep(DatedUpTo(events, date), order)
  {
    AscendingHoldsAll(events);
    forall k | 0 <= k < |order| ensures DatedUpTo(events, date)(order[k]) <==> k < index {
      assert order[k] in order;
      assert k < index ==> order[..index][k] == order[k];
      if index < k { assert !Before(EventRank(events)(order[k]), EventRank(events)(order[index])); }
    }
    PrefixIsKept(DatedUpTo(events, date), order, index);
  }

  /** What the accounts hold in a month's row. */
  method HeldIn(inputs: Inputs, month: nat, today: int, latest: map<nat, Snapshot>) returns (held: int)
    requires IsDate(today) && DatesAreValid(inputs)
    requires HoldsAccounts(latest, inputs.snapshots, Keep(ByMonth(inputs.snapshots, month), InOrder(inputs.snapshots)))
    ensures held == if ValuationDate(month, today) == today then LatestBalances(inputs.snapshots, inputs.derived)
                    else BalancesAt(inputs.snapshots, inputs.derived, ValuationDate(month, today))
  {
    ghost var s: seq<Snapshot>, order: seq<nat> := inputs.snapshots, InOrder(inputs.snapshots);
    InOrderHoldsAll(s);
    forall k | 0 <= k < |order| ensures order[k] < |s| { assert order[k] in order; }
    if ValuationDate(month, today) == today {
      var all := GetLatestSnapshotByAccount(inputs.snapshots);
      held := SumBalances(all, inputs.derived);
      TableSum(all, s, order, inputs.derived, LatestBalance(s));
    } else {
      held := SumBalances(latest, inputs.derived);
      ghost var kept: seq<nat> := Keep<nat>(ByMonth(s, month), order);
      KeepAll(ByMonth(s, month), order);
      forall account: nat ensures BalanceAt(s, ValuationDate(month, today))(account)
                          == BalanceOf(s, LastOf<nat>(OfAccount(s, account), kept))
      {
        MonthIsDate(s, month, today, account);
      }
      TableSum(latest, s, kept, inputs.derived, BalanceAt(s, ValuationDate(month, today)));
    }
  }

  ghost function SeenSnapshots(s: seq<Snapshot>, months: seq<nat>, j: nat): seq<nat>
    requires j <= |months|
  {
    if j == 0 then [] else Keep<nat>(ByMonth(s, months[j - 1]), InOrder(s))
  }

  /** The latest date whose events the table has seen before month `j`. */
  ghost predicate SeenEvents(events: seq<OwedEvent>, today: int, months: seq<nat>, j: nat, owed: map<nat, OwedEvent>,
                             index: nat)
    requires j <= |months|
  {
    && index <= |Ascending(events)| && HoldsItems(owed, events, Ascending(events)[..index])
    && (j == 0 ==> index == 0)
    && (j > 0 ==> AllDatedUpTo(events, Ascending(events)[..index], ValuationDate(months[j - 1], today)))
  }

  ghost predicate AllDatedUpTo(events: seq<OwedEvent>, order: seq<nat>, date: int) {
    forall k :: 0 <= k < |order| ==> order[k] < |events| && events[order[k]].date <= date
  }

  /** Every snapshot's month is among the months, and the groups hold each month's snapshots in order. */
  ghost predicate Prepared(s: seq<Snapshot>, months: seq<nat>, groups: map<nat, seq<nat>>) {
    && Ascends(months)
    && (forall i :: 0 <= i < |s| ==> MonthOf(s[i].date) in months)
    && AllGrouped(groups, s, InOrder(s))
  }

  method AddMonth(s: seq<Snapshot>, months: seq<nat>, groups: map<nat, seq<nat>>, j: nat, table: map<nat, Snapshot>)
    returns (latest: map<nat, Snapshot>)
    requires Prepared(s, months, groups) && j < |months| && HoldsAccounts(table, s, SeenSnapshots(s, months, j))
    ensures HoldsAccounts(latest, s, Keep<nat>(ByMonth(s, months[j]), InOrder(s)))
  {
    var rows := if months[j] in groups then groups[months[j]] else [];
    KeepAll<nat>(InMonth(s, months[j]), InOrder(s));
    assert Grouped(groups, s, InOrder(s), months[j]);
    latest := OverwriteAll(table, s, SeenSnapshots(s, months, j), rows);
    MonthByMonth(s, months, j);
  }

  /** Move the event index on to month `j` and answer what is owed in its row. */
  method OwedThen(inputs: Inputs, today: int, months: seq<nat>, j: nat, table: map<nat, OwedEvent>, start: nat)
    returns (owed: map<nat, OwedEvent>, index: nat, total: int)
    requires IsDate(today) && Ascends(months) && j < |months|
    requires SeenEvents(inputs.events, today, months, j, table, start)
    ensures SeenEvents(inputs.events, today, months, j + 1, owed, index)
    ensures total == if ValuationDate(months[j], today) == today then inputs.owedNow
                     else ReplayAt(inputs.events, ValuationDate(months[j], today))
  {
    var date, order := ValuationDate(months[j], today), Ascending(inputs.events);
    if j > 0 { ValuationAdvances(months[j - 1], months[j], today); }
    index, owed := AdvanceEvents(inputs.events, start, table, date);
    total := inputs.owedNow;
    if date != today {
      total := SumOwed(owed);
      OwedSum(owed, inputs.events, date);
    }
  }

  /** One month of the sweep: snapshots are overwritten month by month, events by a moving index. */
  method SweepMonth(inputs: Inputs, today: int, months: seq<nat>, groups: map<nat, seq<nat>>, j: nat,
                    snapshotsBefore: map<nat, Snapshot>, owedBefore: map<nat, OwedEvent>, start: nat)
    returns (latest: map<nat, Snapshot>, owed: map<nat, OwedEvent>, index: nat, row: Row)
    requires IsDate(today) && DatesAreValid(inputs) && Prepared(inputs.snapshots, months, groups) && j < |months|
    requires HoldsAccounts(snapshotsBefore, inputs.snapshots, SeenSnapshots(inputs.snapshots, months, j))
    requires SeenEvents(inputs.events, today, months, j, owedBefore, start)
    ensures HoldsAccounts(latest, inputs.snapshots, SeenSnapshots(inputs.snapshots, months, j + 1))
    ensures SeenEvents(inputs.events, today, months, j + 1, owed, index)
    ensures row == RowOf(inputs, months[j], today)
  {
    var owedThen: int;
    owed, index, owedThen := OwedThen(inputs, today, months, j, owedBefore, start);
    latest := AddMonth(inputs.snapshots, months, groups, j, snapshotsBefore);
    var held := HeldIn(inputs, months[j], today, latest);
    var invested := Invested(inputs, months[j]);
    row := Row(months[j], held + invested + owedThen, invested);
  }

  ghost predicate RowsAreRight(rows: seq<Row>, inputs: Inputs, months: seq<nat>, today: int) {
    |rows| <= |months| && forall k :: 0 <= k < |rows| ==> rows[k] == RowOf(inputs, months[k], today)
  }

  method SweepMonths(inputs: Inputs, today: int, months: seq<nat>, groups: map<nat, seq<nat>>) returns (rows: seq<Row>)
    requires IsDate(today) && DatesAreValid(inputs) && Prepared(inputs.snapshots, months, groups)
    ensures |rows| == |months| && RowsAreRight(rows, inputs, months, today)
  {
    var latest: map<nat, Snapshot>, owed: map<nat, OwedEvent>, index: nat := map[], map[], 0;
    rows := [];
    NothingSeen(inputs, today, months);
    for j := 0 to |months|
      invariant |rows| == j && RowsAreRight(rows, inputs, months, today)
      invariant HoldsAccounts(latest, inputs.snapshots, SeenSnapshots(inputs.snapshots, months, j))
      invariant SeenEvents(inputs.events, today, months, j, owed, index)
    {
      var row: Row;
      latest, owed, index, row := SweepMonth(inputs, today, months, groups, j, latest, owed, index);
      RowsOneMore(rows, inputs, months, today, row);
      rows := rows + [row];
    }
  }

  lemma {:induction false} RowsOneMore(rows: seq<Row>, inputs: Inputs, months: seq<nat>, today: int, row: Row)
    requires RowsAreRight(rows, inputs, months, today) && |rows| < |months| && row == RowOf(inputs, months[|rows|], today)
    ensures RowsAreRight(rows + [row], inputs, months, today)
  {
  }

  lemma {:induction false} NothingSeen(inputs: Inputs, today: int, months: seq<nat>)
    ensures HoldsAccounts(map[], inputs.snapshots, SeenSnapshots(inputs.snapshots, months, 0))
    ensures SeenEvents(inputs.events, today, months, 0, map[], 0)
  {
  }

  /** One sweep over the sorted months computes every row of the simple definition; the current month's row agrees with
      the summary on everything but how investments are valued. */
  method GetMonthlyTotals(inputs: Inputs, today: int) returns (rows: seq<Row>)
    requires IsDate(today) && DatesAreValid(inputs)
    ensures forall m: nat :: m in AllMonths(inputs, today) <==> exists j :: 0 <= j < |rows| && rows[j].month == m
    ensures forall i, j :: 0 <= i < j < |rows| ==> rows[i].month < rows[j].month
    ensures forall j :: 0 <= j < |rows| ==> rows[j] == RowOf(inputs, rows[j].month, today)
    ensures AllMonths(inputs, today) != {} ==>
      exists j :: 0 <= j < |rows| && rows[j].month == MonthOf(today) && rows[j].total - rows[j].investment == HeldNow(inputs)
  {
    var groups := GroupByMonth(inputs.snapshots);
    var months := SortMonths(AllMonths(inputs, today));
    forall i | 0 <= i < |inputs.snapshots| ensures MonthOf(inputs.snapshots[i].date) in months {
      assert MonthOf(inputs.snapshots[i].date) in SnapshotMonths(inputs.snapshots);
    }
    rows := SweepMonths(inputs, today, months, groups);
    forall m: nat | m in AllMonths(inputs, today) ensures exists j :: 0 <= j < |rows| && rows[j].month == m {
      var j :| 0 <= j < |months| && months[j] == m;
      assert rows[j].month == m;
    }
  }

  // ---------------------------------------------------------------- summary

  /** The summary's total: latest balances, what is owed now, and the present investment value. */
  method GetSummary(inputs: Inputs, investmentNow: int) returns (total: int)
    ensures total == HeldNow(inputs) + investmentNow
  {
    var latest := GetLatestSnapshotByAccount(inputs.snapshots);
    InOrderHoldsAll(inputs.snapshots);
    forall k | 0 <= k < |InOrder(inputs.snapshots)| ensures InOrder(inputs.snapshots)[k] < |inputs.snapshots| {
      assert InOrder(inputs.snapshots)[k] in InOrder(inputs.snapshots);
    }
    TableSum(latest, inputs.snapshots, InOrder(inputs.snapshots), inputs.derived, LatestBalance(inputs.snapshots));
    var held := SumBalances(latest, inputs.derived);
    total := held + inputs.owedNow + investmentNow;
  }

  lemma {:induction false} NoLaterSnapshot(s: seq<Snapshot>, derived: set<nat>, today: int)
    requires forall i :: 0 <= i < |s| ==> s[i].date <= today
    ensures BalancesAt(s, derived, today) == LatestBalances(s, derived)
  {
    forall account: nat ensures BalanceAt(s, today)(account) == LatestBalance(s)(account) {
      LastOfAgree(AccountUpTo(s, account, today), OfAccount(s, account), InOrder(s));
    }
    SameTerms(AccountsOf(s) - derived, BalanceAt(s, today), LatestBalance(s));
  }

  /** When the log is clean and nothing is dated after today, the current row too is what the simple definition says:
      the special case for today changes nothing. */
  lemma {:induction false} CleanBooksNeedNoSpecialCase(inputs: Inputs, b: Books, today: int)
    requires IsDate(today) && inputs.events == b.events && inputs.owedNow == ActiveRemainingTotal(b)
    requires forall i :: 0 <= i < |inputs.snapshots| ==> inputs.snapshots[i].date <= today
    requires FindIssues(b) == [] && AllAreListed(b.items)
    requires forall i :: 0 <= i < |b.events| ==> b.events[i].date <= today && b.events[i].item < |b.items|
    requires forall i :: 0 <= i < |b.items| && b.items[i].deleted ==>
      Latest(b.events, i).Some? && Latest(b.events, i).value.eventType.Deletion?
    ensures RowOf(inputs, MonthOf(today), today).total
         == BalancesAt(inputs.snapshots, inputs.derived, today) + Invested(inputs, MonthOf(today))
            + ReplayAt(inputs.events, today)
  {
    NoLaterSnapshot(inputs.snapshots, inputs.derived, today);
    CleanLogReplaysToPresent(b, today);
  }
}
