/** Wealth by fields: what a month's row adds up, and which months have one. */
module WealthLaws {
  import opened Ordering
  import opened Totals
  import opened OwedBooks
  import opened OwedIntegrity
  import opened WealthHistory

  // ---------------------------------------------------------------- the last record of each

  /** The account's last snapshot by date, on one date the one stored last, of those dated up to `month`. */
  ghost predicate IsLastSnapshot(s: seq<Snapshot>, account: nat, month: int, i: nat) {
    && i < |s| && s[i].account == account && s[i].date / 100 <= month
    && forall j: nat :: j < |s| && s[j].account == account && s[j].date / 100 <= month ==>
         s[j].date < s[i].date || (s[j].date == s[i].date && j <= i)
  }

  /** What the account holds by the end of the month: the balance of its last snapshot, or nothing. */
  ghost predicate Holds(s: seq<Snapshot>, account: nat, month: int, balance: int) {
    if exists i: nat :: IsLastSnapshot(s, account, month, i)
    then exists i: nat :: IsLastSnapshot(s, account, month, i) && s[i].balance == balance
    else balance == 0
  }

  /** The item's last event by date, on one date the one written last, of those dated up to `month`. */
  ghost predicate IsLastEvent(s: seq<OwedEvent>, id: nat, month: int, i: nat) {
    && i < |s| && s[i].item == id && s[i].date / 100 <= month
    && forall j: nat :: j < |s| && s[j].item == id && s[j].date / 100 <= month ==>
         s[j].date < s[i].date || (s[j].date == s[i].date && j <= i)
  }

  /** What an event says is owed: what remains, if it is no deletion and leaves the item open or partially paid. */
  function Says(e: OwedEvent): int {
    if e.eventType != Deletion && (e.status == Open || e.status == PartiallyPaid) then e.remaining else 0
  }

  ghost predicate Owes(s: seq<OwedEvent>, id: nat, month: int, amount: int) {
    if exists i: nat :: IsLastEvent(s, id, month, i)
    then exists i: nat :: IsLastEvent(s, id, month, i) && Says(s[i]) == amount
    else amount == 0
  }

  lemma {:induction false} OneLastSnapshot(s: seq<Snapshot>, account: nat, month: int, i: nat, j: nat)
    requires IsLastSnapshot(s, account, month, i) && IsLastSnapshot(s, account, month, j)
    ensures i == j
  {
  }

  lemma {:induction false} OneLastEvent(s: seq<OwedEvent>, id: nat, month: int, i: nat, j: nat)
    requires IsLastEvent(s, id, month, i) && IsLastEvent(s, id, month, j)
    ensures i == j
  {
  }

  lemma {:induction false} LastSnapshotFound(s: seq<Snapshot>, account: nat, month: nat, today: int)
    requires IsDate(today) && month != MonthOf(today) && forall i :: 0 <= i < |s| ==> IsDate(s[i].date)
    ensures var last := LastOf(AccountUpTo(s, account, ValuationDate(month, today)), InOrder(s));
      && (last.Some? ==> IsLastSnapshot(s, account, month, last.value))
      && (last.None? ==> forall i: nat :: !IsLastSnapshot(s, account, month, i))
  {
    var p := AccountUpTo(s, account, ValuationDate(month, today));
    InOrderHoldsAll(s);
    forall i: nat | i < |s| ensures s[i].date <= ValuationDate(month, today) <==> s[i].date / 100 <= month {
      MonthEndCovers(s[i].date, month, today);
    }
    LastOfMembers(p, InOrder(s));
    if LastOf(p, InOrder(s)).Some? {
      LastOfIsGreatest(SnapshotRank(s), p, InOrder(s));
      var i := LastOf(p, InOrder(s)).value;
      forall j: nat | j < |s| && s[j].account == account && s[j].date / 100 <= month
        ensures s[j].date < s[i].date || (s[j].date == s[i].date && j <= i)
      {
        assert j in InOrder(s) && p(j);
      }
    } else {
      forall i: nat ensures !IsLastSnapshot(s, account, month, i) {
        assert i < |s| ==> i in InOrder(s);
      }
    }
  }

  lemma {:induction false} LastEventFound(s: seq<OwedEvent>, id: nat, month: nat, today: int)
    requires IsDate(today) && month != MonthOf(today) && forall i :: 0 <= i < |s| ==> IsDate(s[i].date)
    ensures var last := LastOf(UpTo(s, id, ValuationDate(month, today)), Ascending(s));
      && (last.Some? ==> IsLastEvent(s, id, month, last.value))
      && (last.None? ==> forall i: nat :: !IsLastEvent(s, id, month, i))
  {
    var p := UpTo(s, id, ValuationDate(month, today));
    AscendingHoldsAll(s);
    forall i: nat | i < |s| ensures s[i].date <= ValuationDate(month, today) <==> s[i].date / 100 <= month {
      MonthEndCovers(s[i].date, month, today);
    }
    LastOfMembers(p, Ascending(s));
    if LastOf(p, Ascending(s)).Some? {
      LastOfIsGreatest(EventRank(s), p, Ascending(s));
      var i := LastOf(p, Ascending(s)).value;
      forall j: nat | j < |s| && s[j].item == id && s[j].date / 100 <= month
        ensures s[j].date < s[i].date || (s[j].date == s[i].date && j <= i)
      {
        assert j in Ascending(s) && p(j);
      }
    } else {
      forall i: nat ensures !IsLastEvent(s, id, month, i) {
        assert i < |s| ==> i in Ascending(s);
      }
    }
  }

  // ---------------------------------------------------------------- the calendar

  /** The leap days of the years before the end of February of `year`. */
  function LeapDaysUpTo(year: int): int {
    year / 4 - year / 100 + year / 400
  }

  /** The first day of a month, counted in days. Years are counted from March, so that the leap day comes last and months
      begin on fixed days of the year. */
  function FirstDayOf(year: int, month: nat): int
    requires 1 <= month <= 12
  {
    var y, m := if month < 3 then year - 1 else year, if month < 3 then month + 9 else month - 3;
    365 * y + LeapDaysUpTo(y) + (153 * m + 2) / 5
  }

  /** A month has as many days as lie between its first day and that of the next. */
  lemma {:induction false} MonthsAreGregorian(year: nat, month: nat)
    requires 1 <= month <= 12
    ensures DaysIn(100 * year + month)
         == (if month == 12 then FirstDayOf(year + 1, 1) else FirstDayOf(year, month + 1)) - FirstDayOf(year, month)
  {
    assert (100 * year + month) / 100 == year && (100 * year + month) % 100 == month;
    if month == 2 {
      LeapDays(year);
    } else {
      FixedMonths(year, month);
    }
  }

  lemma {:induction false} FixedMonths(year: nat, month: nat)
    requires 1 <= month <= 12 && month != 2
    ensures (if month == 12 then FirstDayOf(year + 1, 1) else FirstDayOf(year, month + 1)) - FirstDayOf(year, month)
         == if month in {4, 6, 9, 11} then 30 else 31
  {
  }

  lemma {:induction false} LeapDays(year: nat)
    ensures LeapDaysUpTo(year) - LeapDaysUpTo(year - 1) == if IsLeapYear(year) then 1 else 0
  {
    Fours(year);
    Hundreds(year);
    FourHundreds(year);
    if year % 400 == 0 { Multiples(year / 400, year, 4, 100); }
    if year % 100 == 0 { Multiples(year / 100, year, 25, 4); }
  }

  lemma {:induction false} Fours(year: nat)
    ensures year / 4 - (year - 1) / 4 == if year % 4 == 0 then 1 else 0
  {
  }

  lemma {:induction false} Hundreds(year: nat)
    ensures year / 100 - (year - 1) / 100 == if year % 100 == 0 then 1 else 0
  {
  }

  lemma {:induction false} FourHundreds(year: nat)
    ensures year / 400 - (year - 1) / 400 == if year % 400 == 0 then 1 else 0
  {
  }

  lemma {:induction false} Multiples(q: nat, n: nat, a: nat, k: nat)
    requires k > 0 && n == a * k * q
    ensures n % k == 0
  {
    assert n == k * (a * q);
    assert k * (a * q) % k == 0 by { MultipleOf(a * q, k); }
  }

  lemma {:induction false} MultipleOf(x: nat, k: nat)
    requires k > 0
    ensures k * x % k == 0
  {
    var r := k * x % k;
    var d := k * x / k;
    assert k * (x - d) == r;
    assert x - d >= 1 ==> k * (x - d) >= k;
    assert x - d <= -1 ==> k * (x - d) <= 0 - k;
  }

  // ---------------------------------------------------------------- a month's row

  lemma {:induction false} HeldByFields(s: seq<Snapshot>, account: nat, month: nat, today: int, balance: int)
    requires IsDate(today) && month != MonthOf(today) && forall i :: 0 <= i < |s| ==> IsDate(s[i].date)
    ensures Holds(s, account, month, balance) <==> BalanceAt(s, ValuationDate(month, today))(account) == balance
  {
    LastSnapshotFound(s, account, month, today);
    var last := LastOf(AccountUpTo(s, account, ValuationDate(month, today)), InOrder(s));
    if last.Some? {
      forall i: nat | IsLastSnapshot(s, account, month, i) ensures i == last.value {
        OneLastSnapshot(s, account, month, i, last.value);
      }
    }
  }

  lemma {:induction false} OwedByFields(s: seq<OwedEvent>, id: nat, month: nat, today: int, amount: int)
    requires IsDate(today) && month != MonthOf(today) && forall i :: 0 <= i < |s| ==> IsDate(s[i].date)
    ensures Owes(s, id, month, amount) <==> OwedAt(s, ValuationDate(month, today))(id) == amount
  {
    LastEventFound(s, id, month, today);
    var last := LastOf(UpTo(s, id, ValuationDate(month, today)), Ascending(s));
    if last.Some? {
      forall i: nat | IsLastEvent(s, id, month, i) ensures i == last.value {
        OneLastEvent(s, id, month, i, last.value);
      }
    }
  }

  /** The row of a month other than the current one: what the accounts that are not derived hold, the month's investments,
      and what the items owe, each by its last record up to the end of the month. */
  lemma {:induction false} RowByFields(inputs: Inputs, month: nat, today: int, held: nat -> int, owed: nat -> int)
    requires IsDate(today) && DatesAreValid(inputs) && month != MonthOf(today)
    requires forall account: nat :: Holds(inputs.snapshots, account, month, held(account))
    requires forall id: nat :: Owes(inputs.events, id, month, owed(id))
    ensures var row := RowOf(inputs, month, today);
      var accounts := set i | 0 <= i < |inputs.snapshots| :: inputs.snapshots[i].account;
      var items := set i | 0 <= i < |inputs.events| :: inputs.events[i].item;
      && row.month == month
      && row.investment == (if month in inputs.investments then inputs.investments[month] else 0)
      && row.total == SumOver(accounts - inputs.derived, held) + row.investment + SumOver(items, owed)
  {
    var date := ValuationDate(month, today);
    ValuationIsElsewhere(month, today);
    forall account: nat ensures held(account) == BalanceAt(inputs.snapshots, date)(account) {
      HeldByFields(inputs.snapshots, account, month, today, held(account));
    }
    forall id: nat ensures owed(id) == OwedAt(inputs.events, date)(id) {
      OwedByFields(inputs.events, id, month, today, owed(id));
    }
    SameTerms(AccountsOf(inputs.snapshots) - inputs.derived, BalanceAt(inputs.snapshots, date), held);
    SameTerms(ItemsOf(inputs.events), OwedAt(inputs.events, date), owed);
  }

  lemma {:induction false} ValuationIsElsewhere(month: nat, today: int)
    requires IsDate(today) && month != MonthOf(today)
    ensures ValuationDate(month, today) != today
  {
    if month < MonthOf(today) {
      ValuationAdvances(month, MonthOf(today), today);
    } else {
      ValuationAdvances(MonthOf(today), month, today);
    }
  }

  /** The current month's row: the present totals and the month's investments. */
  lemma {:induction false} CurrentRowByFields(inputs: Inputs, today: int)
    ensures var row := RowOf(inputs, MonthOf(today), today);
      && row.total == LatestBalances(inputs.snapshots, inputs.derived) + inputs.owedNow + row.investment
      && row.investment == if MonthOf(today) in inputs.investments then inputs.investments[MonthOf(today)] else 0
  {
  }

  /** The summary's total without investments: the present balances of the accounts that are not derived, and what is
      owed. */
  lemma {:induction false} SummaryByFields(inputs: Inputs, held: nat -> int)
    requires forall account: nat :: held(account) == LatestBalance(inputs.snapshots)(account)
    ensures var accounts := set i | 0 <= i < |inputs.snapshots| :: inputs.snapshots[i].account;
      HeldNow(inputs) == SumOver(accounts - inputs.derived, held) + inputs.owedNow
  {
    SameTerms(AccountsOf(inputs.snapshots) - inputs.derived, LatestBalance(inputs.snapshots), held);
  }

  /** An account's present balance is that of its last snapshot of all. */
  lemma {:induction false} PresentBalanceByFields(s: seq<Snapshot>, account: nat, i: nat)
    requires i < |s| && s[i].account == account
    requires forall j: nat :: j < |s| && s[j].account == account ==>
      s[j].date < s[i].date || (s[j].date == s[i].date && j <= i)
    ensures LatestBalance(s)(account) == s[i].balance
  {
    var p := OfAccount(s, account);
    InOrderHoldsAll(s);
    LastOfMembers(p, InOrder(s));
    assert i in InOrder(s) && p(i);
    LastOfIsGreatest(SnapshotRank(s), p, InOrder(s));
    var k := LastOf(p, InOrder(s)).value;
    assert k in InOrder(s) && p(k);
    assert !Before(SnapshotRank(s)(k), SnapshotRank(s)(i));
  }

  // ---------------------------------------------------------------- which months

  ghost predicate HasRecords(inputs: Inputs, month: nat) {
    || (exists i :: 0 <= i < |inputs.snapshots| && MonthOf(inputs.snapshots[i].date) == month)
    || (exists i :: 0 <= i < |inputs.events| && MonthOf(inputs.events[i].date) == month)
    || month in inputs.investmentMonths
  }

  /** A month has a row exactly when it has a snapshot, an event or investments, or is the current one and some month
      does. */
  lemma {:induction false} MonthsByFields(inputs: Inputs, today: int, month: nat)
    ensures month in AllMonths(inputs, today)
       <==> HasRecords(inputs, month) || (month == MonthOf(today) && exists m: nat :: HasRecords(inputs, m))
  {
    var months := SnapshotMonths(inputs.snapshots) + inputs.investmentMonths + EventMonths(inputs.events);
    forall m: nat ensures m in months <==> HasRecords(inputs, m) {
    }
    if m: nat :| HasRecords(inputs, m) { assert m in months; }
  }
}
