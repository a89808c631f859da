/** Previews and commits told by fields: what a preview shows of a file, which commits go through, and what they leave. */
module ImportLaws {
  import opened Outcomes
  import opened Ordering
  import opened ImportPreview

  // ---------------------------------------------------------------- what a preview shows

  /** The row at this position of the stream has a hash that is stored or that an earlier row that built carries. */
  ghost predicate CarriedBefore(rows: seq<Row>, i: nat, table: seq<Row>)
    requires i < |rows|
  {
    || (exists j :: 0 <= j < |table| && table[j].hash == rows[i].hash)
    || (exists j :: 0 <= j < i && rows[j].builds && rows[j].hash == rows[i].hash)
  }

  /** A row of the stream that builds, under its number in the file, as a duplicate exactly when its hash was carried
      before. */
  ghost predicate ShowsRow(s: Shown, rows: seq<Row>, before: nat, table: seq<Row>) {
    && before < s.number <= before + |rows|
    && s.row == rows[s.number - before - 1] && s.row.builds
    && (s.duplicate <==> CarriedBefore(rows, s.number - before - 1, table))
  }

  ghost predicate NumbersAscend(numbers: seq<nat>) {
    forall j, k :: 0 <= j < k < |numbers| ==> numbers[j] < numbers[k]
  }

  function NumbersShown(shown: seq<Shown>): seq<nat> {
    seq(|shown|, (k: nat) requires k < |shown| => shown[k].number)
  }

  /** A list shows all rows of a stream that build, in the order of the file. */
  ghost predicate ShowsStream(shown: seq<Shown>, rows: seq<Row>, before: nat, table: seq<Row>) {
    && (forall k :: 0 <= k < |shown| ==> ShowsRow(shown[k], rows, before, table))
    && NumbersAscend(NumbersShown(shown))
    && (forall i :: 0 <= i < |rows| && rows[i].builds ==> before + i + 1 in NumbersShown(shown))
  }

  lemma {:induction false} CarriedByHashes(rows: seq<Row>, i: nat, table: seq<Row>)
    requires i < |rows|
    ensures CarriedBefore(rows, i, table) <==> rows[i].hash in Hashes(table) || rows[i].hash in BuiltHashes(rows[..i])
  {
    assert forall j :: 0 <= j < i ==> rows[..i][j] == rows[j];
  }

  /** The numbers of the rows of a stream that do or do not build. */
  function NumbersOf(rows: seq<Row>, builds: bool, before: nat): seq<nat> {
    if |rows| == 0 then []
    else
      NumbersOf(rows[..|rows| - 1], builds, before) + if rows[|rows| - 1].builds == builds then [before + |rows|] else []
  }

  lemma {:induction false} NumbersAreThose(rows: seq<Row>, builds: bool, before: nat)
    ensures NumbersAscend(NumbersOf(rows, builds, before))
    ensures forall k: nat :: k in NumbersOf(rows, builds, before) <==>
      before < k <= before + |rows| && rows[k - before - 1].builds == builds
  {
    if |rows| > 0 {
      var init := NumbersOf(rows[..|rows| - 1], builds, before);
      NumbersAreThose(rows[..|rows| - 1], builds, before);
      assert forall i :: 0 <= i < |init| ==> init[i] in init;
    }
  }

  lemma {:induction false} ShownNumbers(rows: seq<Row>, stored: set<string>, before: nat)
    ensures NumbersShown(ShowRows(rows, stored, before + 1)) == NumbersOf(rows, true, before)
  {
    if |rows| > 0 {
      ShownNumbers(rows[..|rows| - 1], stored, before);
    }
  }

  lemma {:induction false} StreamIsShown(rows: seq<Row>, before: nat, table: seq<Row>)
    ensures ShowsStream(ShowRows(rows, Hashes(table), before + 1), rows, before, table)
  {
    var shown := ShowRows(rows, Hashes(table), before + 1);
    NewMeansFirstOccurrence(rows, Hashes(table), before + 1);
    forall k | 0 <= k < |shown| ensures ShowsRow(shown[k], rows, before, table) {
      assert ShownFaithfully(shown[k], rows, Hashes(table), before + 1);
      CarriedByHashes(rows, shown[k].number - before - 1, table);
    }
    ShownNumbers(rows, Hashes(table), before);
    NumbersAreThose(rows, true, before);
  }

  function NumbersReported(invalid: seq<InvalidRow>): seq<nat> {
    seq(|invalid|, (k: nat) requires k < |invalid| => invalid[k].number)
  }

  ghost predicate ReportsRow(r: InvalidRow, rows: seq<Row>, before: nat) {
    && before < r.number <= before + |rows|
    && !rows[r.number - before - 1].builds && r.error == rows[r.number - before - 1].error
  }

  ghost predicate ReportsRows(invalid: seq<InvalidRow>, rows: seq<Row>, before: nat) {
    forall k :: 0 <= k < |invalid| ==> ReportsRow(invalid[k], rows, before)
  }

  /** A list reports all rows of a stream that do not build, in the order of the file, with their errors. */
  ghost predicate ReportsStream(invalid: seq<InvalidRow>, rows: seq<Row>, before: nat) {
    && ReportsRows(invalid, rows, before)
    && NumbersAscend(NumbersReported(invalid))
    && (forall i :: 0 <= i < |rows| && !rows[i].builds ==> before + i + 1 in NumbersReported(invalid))
  }

  lemma {:induction false} ReportedRows(rows: seq<Row>, before: nat)
    ensures NumbersReported(InvalidRows(rows, before + 1)) == NumbersOf(rows, false, before)
    ensures ReportsRows(InvalidRows(rows, before + 1), rows, before)
  {
    if |rows| > 0 {
      var n := |rows| - 1;
      var init, all := InvalidRows(rows[..n], before + 1), InvalidRows(rows, before + 1);
      ReportedRows(rows[..n], before);
      forall k | 0 <= k < |all| ensures ReportsRow(all[k], rows, before) {
        if k < |init| { assert ReportsRow(init[k], rows[..n], before); }
      }
    }
  }

  lemma {:induction false} StreamIsReported(rows: seq<Row>, before: nat)
    ensures ReportsStream(InvalidRows(rows, before + 1), rows, before)
  {
    ReportedRows(rows, before);
    NumbersAreThose(rows, false, before);
  }

  ghost predicate ReportsBoth(invalid: seq<InvalidRow>, parsed: Parsed, t: seq<InvalidRow>, e: seq<InvalidRow>) {
    && ReportsStream(t, parsed.transactions, 0) && ReportsStream(e, parsed.events, |parsed.transactions|)
    && invalid == parsed.invalid + t + e
  }

  /** The parser's invalid rows, and then those of both streams. */
  ghost predicate ReportsAll(invalid: seq<InvalidRow>, parsed: Parsed) {
    exists t, e :: ReportsBoth(invalid, parsed, t, e)
  }

  /** A preview shows the transactions numbered from one and then the investment events, reports the parser's invalid rows
      and then those of both streams, and counts them. */
  lemma {:induction false} PreviewByFields(source: string, parsed: Parsed, store: Store)
    ensures var r := BuildResponse(source, parsed, store);
      && ShowsStream(r.transactions, parsed.transactions, 0, store.transactions)
      && ShowsStream(r.events, parsed.events, |parsed.transactions|, store.events)
      && r.source == source && r.total == |parsed.transactions| + |parsed.events| + |parsed.invalid|
      && r.valid == |r.transactions| + |r.events| && r.invalidCount == |r.invalid|
    ensures ReportsAll(BuildResponse(source, parsed, store).invalid, parsed)
  {
    StreamIsShown(parsed.transactions, 0, store.transactions);
    StreamIsShown(parsed.events, |parsed.transactions|, store.events);
    InvalidIsReported(source, parsed, store);
  }

  lemma {:induction false} BothAreReported(invalid: seq<InvalidRow>, parsed: Parsed, t: seq<InvalidRow>, e: seq<InvalidRow>)
    requires ReportsStream(t, parsed.transactions, 0)
    requires ReportsStream(e, parsed.events, |parsed.transactions|)
    requires invalid == parsed.invalid + t + e
    ensures ReportsAll(invalid, parsed)
  {
    assert ReportsBoth(invalid, parsed, t, e);
  }

  lemma {:induction false} InvalidOfPreview(source: string, parsed: Parsed, store: Store)
    ensures BuildResponse(source, parsed, store).invalid
         == parsed.invalid + InvalidRows(parsed.transactions, 1) + InvalidRows(parsed.events, |parsed.transactions| + 1)
  {
  }

  lemma {:induction false} StreamReport(rows: seq<Row>, before: nat, first: nat) returns (report: seq<InvalidRow>)
    requires first == before + 1
    ensures report == InvalidRows(rows, first) && ReportsStream(report, rows, before)
  {
    report := InvalidRows(rows, first);
    StreamIsReported(rows, before);
  }

  lemma {:induction false} InvalidIsReported(source: string, parsed: Parsed, store: Store)
    ensures ReportsAll(BuildResponse(source, parsed, store).invalid, parsed)
  {
    var t := StreamReport(parsed.transactions, 0, 1);
    var e := StreamReport(parsed.events, |parsed.transactions|, |parsed.transactions| + 1);
    var invalid := parsed.invalid + t + e;
    BothAreReported(invalid, parsed, t, e);
    InvalidOfPreview(source, parsed, store);
  }

  // ---------------------------------------------------------------- which commits go through

  /** The rows shown as new, in order. */
  function RowsShownNew(shown: seq<Shown>): seq<Row> {
    if |shown| == 0 then []
    else RowsShownNew(shown[..|shown| - 1]) + if shown[|shown| - 1].duplicate then [] else [shown[|shown| - 1].row]
  }

  lemma {:induction false} NewRowsByFields(shown: seq<Shown>)
    ensures NewRows(shown) == RowsShownNew(shown)
    ensures |Keep(IsNew(), shown)| == |RowsShownNew(shown)|
  {
    if |shown| > 0 {
      var init := shown[..|shown| - 1];
      NewRowsByFields(init);
      NewRowsOneMore(init, shown[|shown| - 1]);
      assert init + [shown[|shown| - 1]] == shown;
    }
  }

  /** A new row still waits for its exchange rate, and may not. */
  ghost predicate WaitsForRate(shown: seq<Shown>) {
    exists k :: 0 <= k < |shown| && !shown[k].duplicate && shown[k].row.fxPending && !shown[k].row.mayStayPending
  }

  lemma {:induction false} WaitingByFields(shown: seq<Shown>)
    ensures Keep(BlocksCommit(), shown) != [] <==> WaitsForRate(shown)
  {
    KeepMembers(BlocksCommit(), shown);
    if Keep(BlocksCommit(), shown) != [] {
      assert Keep(BlocksCommit(), shown)[0] in Keep(BlocksCommit(), shown);
    }
    if WaitsForRate(shown) {
      var k :| 0 <= k < |shown| && !shown[k].duplicate && shown[k].row.fxPending && !shown[k].row.mayStayPending;
      assert shown[k] in Keep(BlocksCommit(), shown);
    }
  }

  /** Hashes that no stored row and no other of the rows carries. */
  ghost predicate FitTable(rows: seq<Row>, table: seq<Row>) {
    && (forall i, j :: 0 <= i < j < |rows| ==> rows[i].hash != rows[j].hash)
    && (forall i, j :: 0 <= i < |rows| && 0 <= j < |table| ==> rows[i].hash != table[j].hash)
  }

  lemma {:induction false} FreshByFields(rows: seq<Row>, table: seq<Row>)
    ensures FitTable(rows, table) <==> HashesAreUnique(rows) && Hashes(rows) !! Hashes(table)
  {
    if FitTable(rows, table) {
      forall h | h in Hashes(rows) ensures h !in Hashes(table) {
        var i :| 0 <= i < |rows| && rows[i].hash == h;
      }
    }
    if Hashes(rows) !! Hashes(table) {
      forall i, j | 0 <= i < |rows| && 0 <= j < |table| ensures rows[i].hash != table[j].hash {
        assert rows[i].hash in Hashes(rows) && table[j].hash in Hashes(table);
      }
    }
  }

  /** A commit is refused as such when a new row waits for its rate, conflicts when a new row's hash is taken, and else
      appends the rows shown as new to both tables. */
  lemma {:induction false} CommitByFields(store: Store, r: Response)
    requires StoreIsUnique(store)
    ensures var t, e := RowsShownNew(r.transactions), RowsShownNew(r.events);
      var waits := WaitsForRate(r.transactions) || WaitsForRate(r.events);
      var fits := FitTable(t, store.transactions) && FitTable(e, store.events);
      && (waits ==> CommitStep(store, r) == Refused(400))
      && (!waits && !fits ==> CommitStep(store, r) == Refused(409))
      && (!waits && fits ==> CommitStep(store, r) == Ok(Store(store.transactions + t, store.events + e)))
  {
    WaitingByFields(r.transactions);
    WaitingByFields(r.events);
    NewRowsByFields(r.transactions);
    NewRowsByFields(r.events);
    FreshByFields(NewRows(r.transactions), store.transactions);
    FreshByFields(NewRows(r.events), store.events);
    InsertsWhenFresh(store.transactions, NewRows(r.transactions));
    InsertsWhenFresh(store.events, NewRows(r.events));
  }

  /** The batch record counts the rows shown as new as inserted and all others as skipped; the import is a success exactly
      when nothing was skipped, and else partial. */
  lemma {:induction false} BatchByFields(source: string, parsed: Parsed, store: Store, filename: string)
    ensures var r := BuildResponse(source, parsed, store);
      var batch := BatchOf(r, filename);
      && batch.source == source && batch.filename == filename && batch.total == r.total
      && batch.inserted == |RowsShownNew(r.transactions)| + |RowsShownNew(r.events)|
      && CountsOf(r) == Counts(r.total, r.valid, r.duplicates, r.invalidCount, |RowsShownNew(r.transactions)|,
                               |RowsShownNew(r.events)|)
      && batch.inserted + batch.skipped == batch.total
      && batch.status == if batch.skipped == 0 then Succeeded else Partial
  {
    var r := BuildResponse(source, parsed, store);
    EveryRowIsAccountedFor(source, parsed, store);
    NewRowsByFields(r.transactions);
    NewRowsByFields(r.events);
  }
}
