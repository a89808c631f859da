/** Monthly trip savings: a change of the default goal applies from the current month on and leaves history alone. */
module TripSavings {
  import opened Outcomes

  // ---------------------------------------------------------------- months as text

  /** Lexicographic comparison, as SQL and Python compare strings. */
  predicate TextBefore(a: string, b: string)
    decreases |a|
  {
    if |a| == 0 || |b| == 0 then |a| < |b|
    else a[0] < b[0] || (a[0] == b[0] && TextBefore(a[1..], b[1..]))
  }

  predicate IsDigit(c: char) {
    '0' <= c <= '9'
  }

  function DigitValue(c: char): nat
    requires IsDigit(c)
  {
    c as nat - '0' as nat
  }

  function Digit(n: nat): char
    requires n < 10
  {
    ('0' as nat + n) as char
  }

  /** Four digits of a year, a dash, and a month from 01 to 12. */
  predicate IsMonth(s: string) {
    && |s| == 7
    && IsDigit(s[0]) && IsDigit(s[1]) && IsDigit(s[2]) && IsDigit(s[3]) && s[4] == '-' && IsDigit(s[5]) && IsDigit(s[6])
    && 1 <= MonthNumber(s) <= 12
  }

  function Year(s: string): nat
    requires |s| == 7 && IsDigit(s[0]) && IsDigit(s[1]) && IsDigit(s[2]) && IsDigit(s[3])
  {
    1000 * DigitValue(s[0]) + 100 * DigitValue(s[1]) + 10 * DigitValue(s[2]) + DigitValue(s[3])
  }

  function MonthNumber(s: string): nat
    requires |s| == 7 && IsDigit(s[5]) && IsDigit(s[6])
  {
    10 * DigitValue(s[5]) + DigitValue(s[6])
  }

  /** Months since year zero: calendar order as a number. */
  function MonthIndex(s: string): nat
    requires IsMonth(s)
  {
    12 * Year(s) + MonthNumber(s) - 1
  }

  function FormatMonth(year: nat, month: nat): string
    requires year < 10000 && month < 100
  {
    [Digit(year / 1000), Digit(year / 100 % 10), Digit(year / 10 % 10), Digit(year % 10), '-',
     Digit(month / 10), Digit(month % 10)]
  }

  lemma {:induction false} FormatThenRead(year: nat, month: nat)
    requires year < 10000 && 1 <= month <= 12
    ensures var s := FormatMonth(year, month); IsMonth(s) && Year(s) == year && MonthNumber(s) == month
  {
    assert year / 100 % 10 == year / 100 - 10 * (year / 1000);
    assert year / 10 % 10 == year / 10 - 10 * (year / 100);
  }

  const LAST_MONTH := "9999-12"

  /** The month after, which the text format can still hold. */
  function NextMonth(s: string): string
    requires IsMonth(s) && s != LAST_MONTH
  {
    IndexBelowLast(s);
    if MonthNumber(s) == 12 then FormatMonth(Year(s) + 1, 1) else FormatMonth(Year(s), MonthNumber(s) + 1)
  }

  /** Two digit strings read as the same number only if they end in the same digit and read the same before it. */
  lemma {:induction false} SameLastDigit(high: nat, low: nat, high': nat, low': nat)
    requires low < 10 && low' < 10 && 10 * high + low == 10 * high' + low'
    ensures high == high' && low == low'
  {
  }

  lemma {:induction false} SameYear(a: string, b: string)
    requires IsMonth(a) && IsMonth(b) && Year(a) == Year(b)
    ensures DigitValue(a[0]) == DigitValue(b[0]) && DigitValue(a[1]) == DigitValue(b[1])
    ensures DigitValue(a[2]) == DigitValue(b[2]) && DigitValue(a[3]) == DigitValue(b[3])
  {
    var (p, q, r, t) := (DigitValue(a[0]), DigitValue(a[1]), DigitValue(a[2]), DigitValue(a[3]));
    var (p', q', r', t') := (DigitValue(b[0]), DigitValue(b[1]), DigitValue(b[2]), DigitValue(b[3]));
    SameLastDigit(100 * p + 10 * q + r, t, 100 * p' + 10 * q' + r', t');
    SameLastDigit(10 * p + q, r, 10 * p' + q', r');
    SameLastDigit(p, q, p', q');
  }

  lemma {:induction false} SameTextIfSameIndex(a: string, b: string)
    requires IsMonth(a) && IsMonth(b) && MonthIndex(a) == MonthIndex(b)
    ensures a == b
  {
    assert Year(a) == Year(b) && MonthNumber(a) == MonthNumber(b);
    SameYear(a, b);
    SameLastDigit(DigitValue(a[5]), DigitValue(a[6]), DigitValue(b[5]), DigitValue(b[6]));
    assert a == [a[0], a[1], a[2], a[3], a[4], a[5], a[6]];
    assert b == [b[0], b[1], b[2], b[3], b[4], b[5], b[6]];
  }

  lemma {:induction false} IndexBelowLast(s: string)
    requires IsMonth(s) && s != LAST_MONTH
    ensures Year(s) < 9999 || (Year(s) == 9999 && MonthNumber(s) < 12)
  {
  }

  lemma {:induction false} NextMonthIsNext(s: string)
    requires IsMonth(s) && s != LAST_MONTH
    ensures IsMonth(NextMonth(s)) && MonthIndex(NextMonth(s)) == MonthIndex(s) + 1
  {
    IndexBelowLast(s);
    if MonthNumber(s) == 12 { FormatThenRead(Year(s) + 1, 1); } else { FormatThenRead(Year(s), MonthNumber(s) + 1); }
  }

  lemma {:induction false} TextAfterEqual(a: string, b: string, n: nat)
    requires n <= |a| == |b| && a[..n] == b[..n]
    ensures TextBefore(a, b) <==> TextBefore(a[n..], b[n..])
  {
    if n > 0 {
      assert a[0] == a[..n][0] && b[0] == b[..n][0];
      assert a[1..][..n - 1] == a[..n][1..] && b[1..][..n - 1] == b[..n][1..];
      TextAfterEqual(a[1..], b[1..], n - 1);
      assert a[1..][n - 1..] == a[n..] && b[1..][n - 1..] == b[n..];
    } else {
      assert a[0..] == a && b[0..] == b;
    }
  }

  lemma {:induction false} DecidedAt(a: string, b: string, n: nat)
    requires n < |a| == |b| && a[..n] == b[..n] && a[n] != b[n]
    ensures TextBefore(a, b) <==> a[n] < b[n]
  {
    TextAfterEqual(a, b, n);
  }

  lemma {:induction false} NeverBeforeItself(a: string)
    ensures !TextBefore(a, a)
  {
    if |a| > 0 {
      NeverBeforeItself(a[1..]);
    }
  }

  /** Comparing months as text is comparing them by the calendar. */
  lemma {:induction false} TextOrderIsCalendarOrder(a: string, b: string)
    requires IsMonth(a) && IsMonth(b)
    ensures TextBefore(a, b) <==> MonthIndex(a) < MonthIndex(b)
  {
    if a == b {
      NeverBeforeItself(a);
    } else {
      var n := FirstDifference(a, b);
      DecidedAt(a, b, n);
      assert n != 4;
      if n < 4 { YearDecides(a, b, n); } else { MonthDecides(a, b, n); }
    }
  }

  function FirstDifference(a: string, b: string): (n: nat)
    requires |a| == |b| && a != b
    ensures n < |a| && a[..n] == b[..n] && a[n] != b[n]
  {
    if a[0] != b[0] then 0
    else
      assert a == [a[0]] + a[1..] && b == [b[0]] + b[1..];
      var n := FirstDifference(a[1..], b[1..]);
      assert a[..n + 1] == [a[0]] + a[1..][..n] && b[..n + 1] == [b[0]] + b[1..][..n];
      n + 1
  }

  lemma {:induction false} YearDecides(a: string, b: string, n: nat)
    requires IsMonth(a) && IsMonth(b) && n < 4 && a[..n] == b[..n] && a[n] != b[n]
    ensures a[n] < b[n] <==> MonthIndex(a) < MonthIndex(b)
  {
  }

  lemma {:induction false} MonthDecides(a: string, b: string, n: nat)
    requires IsMonth(a) && IsMonth(b) && 5 <= n < 7 && a[..n] == b[..n] && a[n] != b[n]
    ensures a[n] < b[n] <==> MonthIndex(a) < MonthIndex(b)
  {
  }

  // ---------------------------------------------------------------- the tables

  datatype Source = Default | Override
  datatype Row = Row(amount: int, goal: int, source: Source)
  datatype Preferences = Preferences(goal: int, createdIn: string)

  /** One user's rows by month, preferences, and the earliest month of any other dated record. Amounts in cents. */
  datatype Savings = Savings(rows: map<string, Row>, preferences: Option<Preferences>, earliest: Option<string>)

  datatype Resolved = Resolved(month: string, amount: int, goal: int, source: Source)

  const DEFAULT_GOAL := 5000

  predicate IsValid(s: Savings) {
    && (forall m | m in s.rows :: IsMonth(m))
    && (s.preferences.Some? ==> IsMonth(s.preferences.value.createdIn))
    && (s.earliest.Some? ==> IsMonth(s.earliest.value))
  }

  function DefaultGoal(s: Savings): int {
    match s.preferences
    case None => DEFAULT_GOAL
    case Some(p) => p.goal
  }

  function Resolve(s: Savings, month: string): Resolved {
    if month in s.rows then Resolved(month, s.rows[month].amount, s.rows[month].goal, s.rows[month].source)
    else Resolved(month, DefaultGoal(s), DefaultGoal(s), Default)
  }

  function Earlier(a: Option<string>, b: Option<string>): Option<string> {
    if a.None? then b else if b.None? then a else if TextBefore(b.value, a.value) then b else a
  }

  function HistoryStart(s: Savings): Option<string> {
    Earlier(match s.preferences case None => None case Some(p) => Some(p.createdIn), s.earliest)
  }

  function SetMonthStep(s: Savings, month: string, amount: Option<int>): Result<Savings> {
    if amount.GetOr(0) < 0 then Refused(UNPROCESSABLE)
    else
      var goal := if month in s.rows then s.rows[month].goal else DefaultGoal(s);
      Ok(s.(rows := s.rows[month := match amount case None => Row(goal, goal, Default)
                                                 case Some(a) => Row(a, goal, Override)]))
  }

  /** The months from `start` up to but excluding `before`. */
  predicate InHistory(month: string, start: Option<string>, before: string) {
    IsMonth(month) && start.Some? && !TextBefore(month, start.value) && TextBefore(month, before)
  }

  /** A month's row after the history has been written down with the old goal. */
  function RowAfterSnapshot(s: Savings, goal: int, before: string, month: string): Option<Row> {
    if month in s.rows then Some(s.rows[month])
    else if InHistory(month, HistoryStart(s), before) then Some(Row(goal, goal, Default))
    else None
  }

  function RowAfterNewDefault(row: Row, goal: int): Row {
    Row(if row.source.Default? then goal else row.amount, goal, row.source)
  }

  ghost predicate Snapshotted(s: Savings, s': Savings, goal: int, before: string) {
    && s' == s.(rows := s'.rows)
    && forall m :: HoldsRow(s', m, RowAfterSnapshot(s, goal, before, m))
  }

  /** Rows from the current month on take the new goal; those still on the default take it as their amount too. */
  function WithNewDefault(s: Savings, from: string, goal: int): Savings {
    s.(rows := map m | m in s.rows :: if TextBefore(m, from) then s.rows[m] else RowAfterNewDefault(s.rows[m], goal))
  }

  function WithPreferences(s: Savings, thisMonth: string): Savings {
    if s.preferences.Some? then s else s.(preferences := Some(Preferences(DEFAULT_GOAL, thisMonth)))
  }

  /** A month's row after the default goal changes while `current` is the current month. */
  function RowAfterChange(s: Savings, goal: int, current: string, month: string): Option<Row> {
    match RowAfterSnapshot(s, DefaultGoal(s), current, month)
    case None => None
    case Some(row) => Some(if TextBefore(month, current) then row else RowAfterNewDefault(row, goal))
  }

  ghost predicate HoldsRow(s: Savings, month: string, row: Option<Row>) {
    row == if month in s.rows then Some(s.rows[month]) else None
  }

  /** What updating the default goal leads to: the goal, and every month's row. */
  ghost predicate GoalChanged(s: Savings, s': Savings, goal: int, created: string, current: string) {
    var p := WithPreferences(s, created);
    if goal == DefaultGoal(p) then s' == p
    else
      && s' == p.(rows := s'.rows, preferences := Some(p.preferences.value.(goal := goal)))
      && forall m :: HoldsRow(s', m, RowAfterChange(p, goal, current, m))
  }

  // ---------------------------------------------------------------- the services

  class TripSavingsService {
    var rows: map<string, Row>
    var preferences: Option<Preferences>
    var earliest: Option<string>

    function State(): Savings
      reads this
    {
      Savings(rows, preferences, earliest)
    }

    constructor ()
      ensures State() == Savings(map[], None, None)
    {
      rows, preferences, earliest := map[], None, None;
    }

    method SetMonth(month: string, amount: Option<int>) returns (r: Result<Row>)
      modifies this`rows
      ensures match SetMonthStep(old(State()), month, amount)
        case Ok(s) => State() == s && r == Ok(rows[month])
        case Refused(status) => State() == old(State()) && r == Refused(status)
    {
      if amount.GetOr(0) < 0 {
        return Refused(UNPROCESSABLE);
      }
      var goal := if month in rows then rows[month].goal else DefaultGoal(State());
      var row := match amount case None => Row(goal, goal, Default) case Some(a) => Row(a, goal, Override);
      rows := rows[month := row];
      return Ok(row);
    }

    /** Insert a row; the unique constraint allows no second row for the month. */
    method AddDefaultSnapshot(month: string, goal: int)
      requires month !in rows
      modifies this`rows
      ensures rows == old(rows)[month := Row(goal, goal, Default)]
    {
      rows := rows[month := Row(goal, goal, Default)];
    }

    method SnapshotHistoricalDefaults(goal: int, before: string)
      requires IsValid(State()) && IsMonth(before)
      modifies this`rows
      ensures IsValid(State()) && Snapshotted(old(State()), State(), goal, before)
    {
      var start := HistoryStart(State());
      if start.None? {
        return;
      }
      TextOrderIsCalendarOrder(start.value, before);
      if !TextBefore(start.value, before) {
        NoHistory(start.value, before);
        return;
      }
      FillMonths(start.value, goal, before);
      FilledIsSnapshotted(old(State()), State(), goal, start.value, before, before);
    }

    /** Insert a row for every month from `start` up to but excluding `before` that had none. */
    method FillMonths(start: string, goal: int, before: string)
      requires IsMonth(start) && IsMonth(before) && MonthIndex(start) <= MonthIndex(before)
      modifies this`rows
      ensures Filled(old(rows), rows, goal, start, before)
    {
      ghost var was := rows;
      var existing := set m | m in rows && !TextBefore(m, start) && TextBefore(m, before);
      var month := start;
      while TextBefore(month, before)
        invariant IsMonth(month) && MonthIndex(start) <= MonthIndex(month) <= MonthIndex(before)
        invariant Filled(was, rows, goal, start, month)
        decreases MonthIndex(before) - MonthIndex(month)
      {
        TextOrderIsCalendarOrder(month, before);
        TextOrderIsCalendarOrder(month, start);
        BeforeLast(month, before);
        NextMonthIsNext(month);
        FillOne(was, rows, goal, start, month);
        if month !in existing {
          AddDefaultSnapshot(month, goal);
        }
        month := NextMonth(month);
      }
      TextOrderIsCalendarOrder(month, before);
      SameTextIfSameIndex(month, before);
    }

    method ApplyNewDefault(from: string, goal: int)
      modifies this`rows
      ensures State() == WithNewDefault(old(State()), from, goal)
    {
      var todo := set m | m in rows && !TextBefore(m, from);
      while todo != {}
        invariant todo <= rows.Keys == old(rows).Keys
        invariant forall m :: m in rows ==>
          rows[m] == if m in todo || TextBefore(m, from) then old(rows)[m] else RowAfterNewDefault(old(rows)[m], goal)
        invariant forall m :: m in todo ==> !TextBefore(m, from)
        decreases |todo|
      {
        var m :| m in todo;
        var row := rows[m].(goal := goal);
        if row.source.Default? {
          row := row.(amount := goal);
        }
        rows := rows[m := row];
        todo := todo - {m};
      }
    }

    /** `created` is the month preferences are created in if there are none; `current` is the user's current month. */
    method UpdatePreferences(newGoal: Option<int>, created: string, current: string) returns (r: Result<()>)
      requires IsValid(State()) && IsMonth(created) && IsMonth(current)
      modifies this
      ensures IsValid(State())
      ensures newGoal.GetOr(1) <= 0 ==> r == Refused(UNPROCESSABLE) && State() == old(State())
      ensures newGoal.GetOr(1) > 0 ==> r.Ok? && match newGoal
        case None => State() == WithPreferences(old(State()), created)
        case Some(goal) => GoalChanged(old(State()), State(), goal, created, current)
    {
      if newGoal.GetOr(1) <= 0 {
        return Refused(UNPROCESSABLE);
      }
      if preferences.None? {
        preferences := Some(Preferences(DEFAULT_GOAL, created));
      }
      ghost var p := State();
      var before := preferences.value.goal;
      if newGoal.Some? {
        if newGoal.value != before {
          SnapshotHistoricalDefaults(before, current);
          ghost var mid := State();
          ApplyNewDefault(current, newGoal.value);
          forall m ensures HoldsRow(State(), m, RowAfterChange(p, newGoal.value, current, m)) {
            assert HoldsRow(mid, m, RowAfterSnapshot(p, before, current, m));
          }
        }
        preferences := Some(preferences.value.(goal := newGoal.value));
      }
      return Ok(());
    }
  }

  predicate Between(m: string, start: string, end: string)
    requires IsMonth(m) && IsMonth(start) && IsMonth(end)
  {
    MonthIndex(start) <= MonthIndex(m) < MonthIndex(end)
  }

  /** A month's row once the months from `start` up to but excluding `end` have been filled. */
  ghost predicate FilledAt(was: map<string, Row>, rows: map<string, Row>, goal: int, start: string, end: string, m: string)
    requires IsMonth(start) && IsMonth(end)
  {
    if m in was then m in rows && rows[m] == was[m]
    else if IsMonth(m) && Between(m, start, end) then m in rows && rows[m] == Row(goal, goal, Default)
    else m !in rows
  }

  ghost predicate Filled(was: map<string, Row>, rows: map<string, Row>, goal: int, start: string, end: string)
    requires IsMonth(start) && IsMonth(end)
  {
    forall m :: FilledAt(was, rows, goal, start, end, m)
  }

  /** Filling one more month, by inserting its row unless the table had one from the start. */
  lemma {:induction false} FillOne(was: map<string, Row>, rows: map<string, Row>, goal: int, start: string, month: string)
    requires IsMonth(start) && IsMonth(month) && month != LAST_MONTH && MonthIndex(start) <= MonthIndex(month)
    requires IsMonth(NextMonth(month)) && MonthIndex(NextMonth(month)) == MonthIndex(month) + 1
    requires Filled(was, rows, goal, start, month)
    ensures month in rows <==> month in was
    ensures Filled(was, if month in was then rows else rows[month := Row(goal, goal, Default)], goal, start, NextMonth(month))
  {
    assert FilledAt(was, rows, goal, start, month, month);
    var rows' := if month in was then rows else rows[month := Row(goal, goal, Default)];
    forall m ensures FilledAt(was, rows', goal, start, NextMonth(month), m) {
      assert FilledAt(was, rows, goal, start, month, m);
      if IsMonth(m) && MonthIndex(m) == MonthIndex(month) { SameTextIfSameIndex(m, month); }
    }
  }

  lemma {:induction false} FilledIsSnapshotted(s: Savings, s': Savings, goal: int, start: string, end: string, before: string)
    requires IsValid(s) && IsMonth(start) && IsMonth(end) && IsMonth(before) && HistoryStart(s) == Some(start)
    requires MonthIndex(end) == MonthIndex(before) && s' == s.(rows := s'.rows) && Filled(s.rows, s'.rows, goal, start, end)
    ensures IsValid(s') && Snapshotted(s, s', goal, before)
  {
    forall m ensures HoldsRow(s', m, RowAfterSnapshot(s, goal, before, m)) && (m in s'.rows ==> IsMonth(m)) {
      assert FilledAt(s.rows, s'.rows, goal, start, end, m);
      if IsMonth(m) {
        TextOrderIsCalendarOrder(m, start);
        TextOrderIsCalendarOrder(m, before);
      }
    }
  }

  lemma {:induction false} BeforeLast(month: string, before: string)
    requires IsMonth(month) && IsMonth(before) && MonthIndex(month) < MonthIndex(before)
    ensures month != LAST_MONTH
  {
  }

  lemma {:induction false} NoHistory(start: string, before: string)
    requires IsMonth(start) && IsMonth(before) && !TextBefore(start, before)
    ensures forall m :: !InHistory(m, Some(start), before)
  {
    forall m ensures !InHistory(m, Some(start), before) {
      if IsMonth(m) {
        TextOrderIsCalendarOrder(m, start);
        TextOrderIsCalendarOrder(m, before);
        TextOrderIsCalendarOrder(start, before);
      }
    }
  }

  // ---------------------------------------------------------------- the start of history, and setting a month

  /** History starts with the preferences or the earliest other record, whichever month comes first by the calendar. */
  lemma {:induction false} HistoryStartIsEarliest(s: Savings)
    requires IsValid(s)
    ensures HistoryStart(s).None? <==> s.preferences.None? && s.earliest.None?
    ensures HistoryStart(s).Some? ==>
      var start := HistoryStart(s).value;
      && IsMonth(start)
      && ((s.preferences.Some? && start == s.preferences.value.createdIn) || s.earliest == Some(start))
      && (s.preferences.Some? ==> MonthIndex(start) <= MonthIndex(s.preferences.value.createdIn))
      && (s.earliest.Some? ==> MonthIndex(start) <= MonthIndex(s.earliest.value))
  {
    if s.preferences.Some? && s.earliest.Some? {
      TextOrderIsCalendarOrder(s.earliest.value, s.preferences.value.createdIn);
    }
  }

  /** Setting a month makes it an override of that amount, or takes its goal as the default again; its goal and every other
      month stay, and only a negative amount is refused. */
  lemma {:induction false} SettingAMonth(s: Savings, month: string, amount: Option<int>)
    ensures SetMonthStep(s, month, amount) == Refused(422) <==> amount.Some? && amount.value < 0
    ensures SetMonthStep(s, month, amount).Ok? <==> amount.None? || amount.value >= 0
    ensures SetMonthStep(s, month, amount).Ok? ==>
      var s', goal := SetMonthStep(s, month, amount).value, Resolve(s, month).goal;
      && s'.preferences == s.preferences && s'.earliest == s.earliest && s'.rows.Keys == s.rows.Keys + {month}
      && (amount.Some? ==> Resolve(s', month) == Resolved(month, amount.value, goal, Override))
      && (amount.None? ==> Resolve(s', month) == Resolved(month, goal, goal, Default))
      && forall m :: m != month ==> Resolve(s', m) == Resolve(s, m) && (m in s'.rows <==> m in s.rows)
  {
  }

  /** A month with a row shows that row, and one without the goal in force, which is 50.00 until preferences are made. */
  lemma {:induction false} ResolvingAMonth(s: Savings, month: string)
    ensures month in s.rows ==>
      Resolve(s, month) == Resolved(month, s.rows[month].amount, s.rows[month].goal, s.rows[month].source)
    ensures month !in s.rows && s.preferences.Some? ==>
      Resolve(s, month) == Resolved(month, s.preferences.value.goal, s.preferences.value.goal, Default)
    ensures month !in s.rows && s.preferences.None? ==> Resolve(s, month) == Resolved(month, 5000, 5000, Default)
  {
  }

  // ---------------------------------------------------------------- what a change of goal does

  /** No month from the start of history up to the current one changes. */
  lemma {:induction false} HistoryIsKept(s: Savings, s': Savings, goal: int, created: string, current: string, m: string)
    requires GoalChanged(s, s', goal, created, current)
    requires InHistory(m, HistoryStart(WithPreferences(s, created)), current)
    ensures Resolve(s', m) == Resolve(s, m)
  {
    var p := WithPreferences(s, created);
    if goal != DefaultGoal(p) { assert HoldsRow(s', m, RowAfterChange(p, goal, current, m)); }
  }

  /** Told by the calendar: a past month resolves as before if it is not before the preferences' month, or if it is not
      before the earliest other record. */
  lemma {:induction false} RecordedMonthsAreKept(s: Savings, s': Savings, goal: int, created: string, current: string,
                                                 m: string)
    requires IsValid(s) && IsMonth(created) && IsMonth(current) && GoalChanged(s, s', goal, created, current)
    requires IsMonth(m) && MonthIndex(m) < MonthIndex(current)
    requires var since := if s.preferences.Some? then s.preferences.value.createdIn else created;
      MonthIndex(since) <= MonthIndex(m) || (s.earliest.Some? && MonthIndex(s.earliest.value) <= MonthIndex(m))
    ensures Resolve(s', m) == Resolve(s, m)
  {
    var p := WithPreferences(s, created);
    HistoryStartIsEarliest(p);
    TextOrderIsCalendarOrder(m, current);
    TextOrderIsCalendarOrder(m, HistoryStart(p).value);
    HistoryIsKept(s, s', goal, created, current, m);
  }

  /** Every month from the current one on has the new goal, and the new goal as its amount unless it is overridden. */
  lemma {:induction false} FutureTakesTheGoal(s: Savings, s': Savings, goal: int, created: string, current: string, m: string)
    requires GoalChanged(s, s', goal, created, current) && goal != DefaultGoal(WithPreferences(s, created))
    requires !TextBefore(m, current)
    ensures Resolve(s', m).goal == goal && Resolve(s', m).source == Resolve(s, m).source
    ensures Resolve(s', m).amount == if Resolve(s, m).source.Override? then Resolve(s, m).amount else goal
  {
    assert HoldsRow(s', m, RowAfterChange(WithPreferences(s, created), goal, current, m));
  }

  /** A past month is rewritten exactly when it has no row and lies before the start of history. */
  lemma {:induction false} OnlyPrehistoryIsRewritten(s: Savings, s': Savings, goal: int, created: string, current: string,
                                                     m: string)
    requires GoalChanged(s, s', goal, created, current) && goal != DefaultGoal(WithPreferences(s, created))
    requires IsMonth(m) && TextBefore(m, current)
    ensures Resolve(s', m) != Resolve(s, m) <==>
      m !in s.rows && TextBefore(m, HistoryStart(WithPreferences(s, created)).value)
  {
    assert HoldsRow(s', m, RowAfterChange(WithPreferences(s, created), goal, current, m));
  }

  const FIRST_CHANGE := Savings(map["2024-05" := Row(5000, 5000, Default)], Some(Preferences(6000, "2024-05")), None)

  lemma {:induction false} FirstChangeAt(m: string)
    ensures HoldsRow(FIRST_CHANGE, m,
                     RowAfterChange(WithPreferences(Savings(map[], None, None), "2024-05"), 6000, "2024-06", m))
  {
    if IsMonth(m) {
      assert MonthIndex("2024-05") + 1 == MonthIndex("2024-06");
      TextOrderIsCalendarOrder(m, "2024-05");
      TextOrderIsCalendarOrder(m, "2024-06");
      if MonthIndex(m) == MonthIndex("2024-05") { SameTextIfSameIndex(m, "2024-05"); }
    }
  }

  /** Such a month exists in a state that is reached at once: preferences made in May, the goal raised in June, and April
      then resolves to the new goal. */
  lemma {:induction false} PrehistoryIsRewritten()
    ensures var s := Savings(map[], None, None);
      && GoalChanged(s, FIRST_CHANGE, 6000, "2024-05", "2024-06")
      && Resolve(s, "2024-04").amount == 5000 && Resolve(FIRST_CHANGE, "2024-04").amount == 6000
  {
    var p := WithPreferences(Savings(map[], None, None), "2024-05");
    forall m ensures HoldsRow(FIRST_CHANGE, m, RowAfterChange(p, 6000, "2024-06", m)) {
      FirstChangeAt(m);
    }
  }

  // ---------------------------------------------------------------- runs

  datatype Op =
    | SetAmount(month: string, amount: Option<int>)
    | ChangeGoal(goal: int, created: string, current: string, after: Savings)
    | OtherRecords(earliest: Option<string>)

  /** One step of a run; `after` is the state a change of goal leads to, and other dated records come and go. */
  ghost predicate Steps(s: Savings, op: Op, s': Savings) {
    match op
    case SetAmount(month, amount) => s' == (match SetMonthStep(s, month, amount) case Ok(t) => t case Refused(_) => s)
    case ChangeGoal(goal, created, current, after) => s' == after && GoalChanged(s, after, goal, created, current)
    case OtherRecords(earliest) => s' == s.(earliest := earliest)
  }

  ghost predicate IsRun(states: seq<Savings>, ops: seq<Op>) {
    && |states| == |ops| + 1
    && forall k :: 0 <= k < |ops| ==> Steps(states[k], ops[k], states[k + 1])
  }

  /** The request gives a goal that differs from the one in force. */
  predicate Changes(s: Savings, op: Op) {
    op.ChangeGoal? && op.goal != DefaultGoal(WithPreferences(s, op.created))
  }

  ghost predicate ChangedBefore(states: seq<Savings>, ops: seq<Op>, n: nat)
    requires n <= |ops| < |states|
  {
    exists k :: 0 <= k < n && Changes(states[k], ops[k])
  }

  /** The current month never goes back. */
  ghost predicate MonthsAdvance(ops: seq<Op>) {
    && (forall k :: 0 <= k < |ops| && ops[k].ChangeGoal? ==> IsMonth(ops[k].current))
    && forall j, k :: 0 <= j < k < |ops| && ops[j].ChangeGoal? && ops[k].ChangeGoal? ==>
         !TextBefore(ops[k].current, ops[j].current)
  }

  /** At the first change of the goal the month is history. */
  ghost predicate HistoryAtFirstChange(states: seq<Savings>, ops: seq<Op>, m: string)
    requires |ops| < |states|
  {
    forall k: nat :: k < |ops| && Changes(states[k], ops[k]) && !ChangedBefore(states, ops, k) ==>
      InHistory(m, HistoryStart(WithPreferences(states[k], ops[k].created)), ops[k].current)
  }

  /** A change of goal does not touch what a written-down month resolves to: the month is past by then, or is what the
      new goal would make it. */
  predicate Spares(op: Op, r: Resolved) {
    op.ChangeGoal? ==>
      || TextBefore(r.month, op.current)
      || (r.goal == op.goal && (r.source.Override? || r.amount == op.goal))
  }

  lemma {:induction false} OneStepSpares(s: Savings, op: Op, s': Savings, m: string)
    requires Steps(s, op, s') && (op.SetAmount? ==> op.month != m)
    requires Changes(s, op) && m !in s.rows ==> InHistory(m, HistoryStart(WithPreferences(s, op.created)), op.current)
    ensures Resolve(s', m) == Resolve(s, m) <==> (Changes(s, op) ==> Spares(op, Resolve(s, m)))
  {
    if Changes(s, op) {
      assert HoldsRow(s', m, RowAfterChange(WithPreferences(s, op.created), op.goal, op.current, m));
    }
  }

  lemma {:induction false} ChangesWriteDown(s: Savings, op: Op, s': Savings, m: string)
    requires Steps(s, op, s') && Changes(s, op)
    requires InHistory(m, HistoryStart(WithPreferences(s, op.created)), op.current)
    ensures m in s'.rows
  {
    assert HoldsRow(s', m, RowAfterChange(WithPreferences(s, op.created), op.goal, op.current, m));
  }

  lemma {:induction false} RowsStay(s: Savings, op: Op, s': Savings, m: string)
    requires Steps(s, op, s') && m in s.rows
    ensures m in s'.rows
  {
    if Changes(s, op) {
      assert HoldsRow(s', m, RowAfterChange(WithPreferences(s, op.created), op.goal, op.current, m));
    }
  }

  lemma {:induction false} RowStaysAt(states: seq<Savings>, ops: seq<Op>, m: string, k: nat)
    requires IsRun(states, ops) && k < |ops| && m in states[k].rows
    ensures m in states[k + 1].rows
  {
    var s, op, s' := states[k], ops[k], states[k + 1];
    assert Steps(s, op, s');
    RowsStay(s, op, s', m);
  }

  lemma {:induction false} FirstChangeWritesDown(states: seq<Savings>, ops: seq<Op>, m: string, k: nat)
    requires IsRun(states, ops) && HistoryAtFirstChange(states, ops, m)
    requires k < |ops| && Changes(states[k], ops[k]) && !ChangedBefore(states, ops, k)
    ensures m in states[k + 1].rows
  {
    var s, op, s' := states[k], ops[k], states[k + 1];
    assert Steps(s, op, s');
    ChangesWriteDown(s, op, s', m);
  }

  /** The first change of the goal writes the month down. */
  lemma {:induction false} WrittenDown(states: seq<Savings>, ops: seq<Op>, m: string, n: nat)
    requires IsRun(states, ops) && HistoryAtFirstChange(states, ops, m) && n <= |ops| && ChangedBefore(states, ops, n)
    ensures m in states[n].rows
  {
    if ChangedBefore(states, ops, n - 1) {
      WrittenDown(states, ops, m, n - 1);
      RowStaysAt(states, ops, m, n - 1);
    } else {
      FirstChangeWritesDown(states, ops, m, n - 1);
    }
  }

  lemma {:induction false} StepOfRunSpares(states: seq<Savings>, ops: seq<Op>, m: string, n: nat)
    requires IsRun(states, ops) && HistoryAtFirstChange(states, ops, m) && n < |ops|
    requires forall k :: 0 <= k < |ops| && ops[k].SetAmount? ==> ops[k].month != m
    ensures Resolve(states[n + 1], m) == Resolve(states[n], m) <==>
      (Changes(states[n], ops[n]) ==> Spares(ops[n], Resolve(states[n], m)))
  {
    if ChangedBefore(states, ops, n) { WrittenDown(states, ops, m, n); }
    assert Steps(states[n], ops[n], states[n + 1]);
    OneStepSpares(states[n], ops[n], states[n + 1], m);
  }

  /** Every change of the goal in the run spares the month as it first resolved. */
  ghost predicate AllSpare(states: seq<Savings>, ops: seq<Op>, m: string)
    requires |ops| < |states|
  {
    forall k :: 0 <= k < |ops| && Changes(states[k], ops[k]) ==> Spares(ops[k], Resolve(states[0], m))
  }

  lemma {:induction false} KeptWhileSpared(states: seq<Savings>, ops: seq<Op>, m: string, n: nat)
    requires IsRun(states, ops) && HistoryAtFirstChange(states, ops, m) && n <= |ops| && AllSpare(states, ops, m)
    requires forall k :: 0 <= k < |ops| && ops[k].SetAmount? ==> ops[k].month != m
    ensures Resolve(states[n], m) == Resolve(states[0], m)
  {
    if n > 0 {
      KeptWhileSpared(states, ops, m, n - 1);
      StepOfRunSpares(states, ops, m, n - 1);
    }
  }

  /** A month that is history when the goal first changes keeps what it resolves to all through a run that does not set
      it, exactly when each change of the goal finds it past or asks for what it is already; other records may come and
      go, and the current month may go back with the user's time zone. */
  lemma {:induction false} HistoryIsKeptExactlyWhenSpared(states: seq<Savings>, ops: seq<Op>, m: string)
    requires IsRun(states, ops) && HistoryAtFirstChange(states, ops, m)
    requires forall k :: 0 <= k < |ops| && ops[k].SetAmount? ==> ops[k].month != m
    ensures AllSpare(states, ops, m) <==> forall n :: 0 <= n <= |ops| ==> Resolve(states[n], m) == Resolve(states[0], m)
  {
    if AllSpare(states, ops, m) {
      forall n | 0 <= n <= |ops| ensures Resolve(states[n], m) == Resolve(states[0], m) {
        KeptWhileSpared(states, ops, m, n);
      }
    }
    if forall n :: 0 <= n <= |ops| ==> Resolve(states[n], m) == Resolve(states[0], m) {
      forall k | 0 <= k < |ops| && Changes(states[k], ops[k]) ensures Spares(ops[k], Resolve(states[0], m)) {
        StepOfRunSpares(states, ops, m, k);
      }
    }
  }

  lemma {:induction false} FirstChange(states: seq<Savings>, ops: seq<Op>, n: nat) returns (k: nat)
    requires n <= |ops| < |states| && ChangedBefore(states, ops, n)
    ensures k < n && Changes(states[k], ops[k]) && !ChangedBefore(states, ops, k)
  {
    if ChangedBefore(states, ops, n - 1) {
      k := FirstChange(states, ops, n - 1);
    } else {
      k := n - 1;
    }
  }

  lemma {:induction false} StillPast(m: string, first: string, later: string)
    requires IsMonth(m) && IsMonth(first) && IsMonth(later) && TextBefore(m, first) && !TextBefore(later, first)
    ensures TextBefore(m, later)
  {
    TextOrderIsCalendarOrder(m, first);
    TextOrderIsCalendarOrder(m, later);
    TextOrderIsCalendarOrder(later, first);
  }

  /** While the current month never goes back the month always stays past, so nothing ever changes what it resolves to. */
  lemma {:induction false} HistoryNeverChanges(states: seq<Savings>, ops: seq<Op>, m: string)
    requires IsRun(states, ops) && MonthsAdvance(ops) && HistoryAtFirstChange(states, ops, m)
    requires forall k :: 0 <= k < |ops| && ops[k].SetAmount? ==> ops[k].month != m
    ensures Resolve(states[|ops|], m) == Resolve(states[0], m)
  {
    forall k | 0 <= k < |ops| && Changes(states[k], ops[k]) ensures Spares(ops[k], Resolve(states[0], m)) {
      if ChangedBefore(states, ops, k) {
        var first := FirstChange(states, ops, k);
        StillPast(m, ops[first].current, ops[k].current);
      }
    }
    HistoryIsKeptExactlyWhenSpared(states, ops, m);
  }

  const BACK_IN_MAY := Savings(map["2024-05" := Row(7000, 7000, Default)], Some(Preferences(7000, "2024-05")), None)

  /** The current month can go back: after the first change in June has written May down, a change of the goal made while
      the user's time zone still has May rewrites it. */
  lemma {:induction false} GoingBackRewrites()
    ensures GoalChanged(Savings(map[], None, None), FIRST_CHANGE, 6000, "2024-05", "2024-06")
    ensures GoalChanged(FIRST_CHANGE, BACK_IN_MAY, 7000, "2024-05", "2024-05")
    ensures Resolve(FIRST_CHANGE, "2024-05").amount == 5000 && Resolve(BACK_IN_MAY, "2024-05").amount == 7000
  {
    PrehistoryIsRewritten();
    forall m ensures HoldsRow(BACK_IN_MAY, m, RowAfterChange(FIRST_CHANGE, 7000, "2024-05", m)) {
      if IsMonth(m) { TextOrderIsCalendarOrder(m, "2024-05"); }
    }
  }
}
