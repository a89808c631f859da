/** Building an import preview, counting it, and committing it into the tables. */
module ImportPreview {
  import opened Outcomes
  import opened Ordering

  /** A parsed row: whether it builds, its dedupe hash, and whether its exchange rate is still pending. */
  datatype Row = Row(hash: string, content: string, builds: bool, error: string, fxPending: bool, mayStayPending: bool)
  datatype InvalidRow = InvalidRow(number: nat, error: string)
  datatype Parsed = Parsed(transactions: seq<Row>, events: seq<Row>, invalid: seq<InvalidRow>)

  datatype Shown = Shown(number: nat, row: Row, duplicate: bool)
  datatype Response = Response(
    source: string, total: nat, valid: nat, duplicates: nat, invalidCount: nat,
    transactions: seq<Shown>, events: seq<Shown>, invalid: seq<InvalidRow>)

  /** One user's stored rows; dedupe hashes are unique in each table. */
  datatype Store = Store(transactions: seq<Row>, events: seq<Row>)

  const EMPTY_STORE := Store([], [])

  function Hashes(rows: seq<Row>): set<string> {
    set i | 0 <= i < |rows| :: rows[i].hash
  }

  predicate HashesAreUnique(rows: seq<Row>) {
    forall i, j :: 0 <= i < j < |rows| ==> rows[i].hash != rows[j].hash
  }

  predicate StoreIsUnique(s: Store) {
    HashesAreUnique(s.transactions) && HashesAreUnique(s.events)
  }

  // ---------------------------------------------------------------- building

  /** Hashes of the rows that built. */
  function BuiltHashes(rows: seq<Row>): set<string> {
    set i | 0 <= i < |rows| && rows[i].builds :: rows[i].hash
  }

  function ShowRows(rows: seq<Row>, stored: set<string>, first: nat): seq<Shown> {
    if |rows| == 0 then []
    else
      var init, row := rows[..|rows| - 1], rows[|rows| - 1];
      ShowRows(init, stored, first)
      + if row.builds then [Shown(first + |init|, row, row.hash in stored || row.hash in BuiltHashes(init))] else []
  }

  function InvalidRows(rows: seq<Row>, first: nat): seq<InvalidRow> {
    if |rows| == 0 then []
    else
      var init, row := rows[..|rows| - 1], rows[|rows| - 1];
      InvalidRows(init, first) + if row.builds then [] else [InvalidRow(first + |init|, row.error)]
  }

  function IsDuplicate(): Shown -> bool {
    (s: Shown) => s.duplicate
  }

  function IsNew(): Shown -> bool {
    (s: Shown) => !s.duplicate
  }

  function ShownRow(): Shown -> Row {
    (s: Shown) => s.row
  }

  function BuildResponse(source: string, parsed: Parsed, store: Store): Response {
    var transactions := ShowRows(parsed.transactions, Hashes(store.transactions), 1);
    var events := ShowRows(parsed.events, Hashes(store.events), |parsed.transactions| + 1);
    var invalid := parsed.invalid + InvalidRows(parsed.transactions, 1)
                   + InvalidRows(parsed.events, |parsed.transactions| + 1);
    Response(source, |parsed.transactions| + |parsed.events| + |parsed.invalid|, |transactions| + |events|,
             |Keep(IsDuplicate(), transactions)| + |Keep(IsDuplicate(), events)|, |invalid|,
             transactions, events, invalid)
  }

  /** One pass over a stream of rows with the set of hashes seen so far. */
  method BuildStream(rows: seq<Row>, stored: set<string>, first: nat, before: seq<InvalidRow>)
    returns (shown: seq<Shown>, invalid: seq<InvalidRow>)
    ensures shown == ShowRows(rows, stored, first) && invalid == before + InvalidRows(rows, first)
  {
    shown, invalid := [], before;
    var seen: set<string> := {};
    for k := 0 to |rows|
      invariant shown == ShowRows(rows[..k], stored, first) && invalid == before + InvalidRows(rows[..k], first)
      invariant seen == BuiltHashes(rows[..k])
    {
      assert rows[..k + 1][..k] == rows[..k];
      var row := rows[k];
      BuiltOneMore(rows, k);
      if row.builds {
        shown := shown + [Shown(first + k, row, row.hash in stored || row.hash in seen)];
        seen := seen + {row.hash};
      } else {
        invalid := invalid + [InvalidRow(first + k, row.error)];
      }
    }
    assert rows[..|rows|] == rows;
  }

  lemma {:induction false} BuiltOneMore(rows: seq<Row>, k: nat)
    requires k < |rows|
    ensures BuiltHashes(rows[..k + 1]) == BuiltHashes(rows[..k]) + if rows[k].builds then {rows[k].hash} else {}
  {
  }

  method CountDuplicates(shown: seq<Shown>) returns (n: nat)
    ensures n == |Keep(IsDuplicate(), shown)|
  {
    n := 0;
    for k := 0 to |shown|
      invariant n == |Keep(IsDuplicate(), shown[..k])|
    {
      assert shown[..k + 1][..k] == shown[..k];
      if shown[k].duplicate {
        n := n + 1;
      }
    }
    assert shown[..|shown|] == shown;
  }

  method BuildPreviewResponse(source: string, parsed: Parsed, store: Store) returns (r: Response)
    ensures r == BuildResponse(source, parsed, store)
  {
    var transactions, invalid := BuildStream(parsed.transactions, Hashes(store.transactions), 1, parsed.invalid);
    var events, all := BuildStream(parsed.events, Hashes(store.events), |parsed.transactions| + 1, invalid);
    var d := CountDuplicates(transactions);
    var e := CountDuplicates(events);
    r := Response(source, |parsed.transactions| + |parsed.events| + |parsed.invalid|, |transactions| + |events|, d + e,
                  |all|, transactions, events, all);
  }

  /** A shown row is the file's row of that number, and is new exactly when its hash is neither stored nor carried by
      an earlier row that built. */
  ghost predicate ShownFaithfully(s: Shown, rows: seq<Row>, stored: set<string>, first: nat) {
    && first <= s.number < first + |rows|
    && s.row == rows[s.number - first] && s.row.builds
    && (!s.duplicate <==> s.row.hash !in stored && s.row.hash !in BuiltHashes(rows[..s.number - first]))
  }

  lemma {:induction false} ShownOneMore(rows: seq<Row>, stored: set<string>, first: nat, s: Shown)
    requires |rows| > 0 && ShownFaithfully(s, rows[..|rows| - 1], stored, first)
    ensures ShownFaithfully(s, rows, stored, first) && s.number < first + |rows| - 1
  {
  }

  lemma {:induction false} NewMeansFirstOccurrence(rows: seq<Row>, stored: set<string>, first: nat)
    ensures forall i :: 0 <= i < |ShowRows(rows, stored, first)| ==>
      ShownFaithfully(ShowRows(rows, stored, first)[i], rows, stored, first)
  {
    if |rows| > 0 {
      var init, row, all := rows[..|rows| - 1], rows[|rows| - 1], ShowRows(rows, stored, first);
      var before := ShowRows(init, stored, first);
      NewMeansFirstOccurrence(init, stored, first);
      forall i | 0 <= i < |all| ensures ShownFaithfully(all[i], rows, stored, first) {
        if i < |before| { ShownOneMore(rows, stored, first, before[i]); }
      }
    }
  }

  /** Every row that builds is shown, in the order of the file. */
  lemma {:induction false} BuiltRowsAreShown(rows: seq<Row>, stored: set<string>, first: nat)
    ensures Project(ShownRow(), ShowRows(rows, stored, first)) == Keep(Builds(), rows)
  {
    if |rows| > 0 {
      BuiltRowsAreShown(rows[..|rows| - 1], stored, first);
    }
  }

  function Builds(): Row -> bool {
    (r: Row) => r.builds
  }

  // ---------------------------------------------------------------- counts

  datatype Counts = Counts(total: nat, valid: nat, duplicates: nat, invalid: nat, newTransactions: nat, newEvents: nat)

  function CountsOf(r: Response): Counts {
    Counts(r.total, r.valid, r.duplicates, r.invalidCount, |Keep(IsNew(), r.transactions)|, |Keep(IsNew(), r.events)|)
  }

  datatype ImportStatus = Succeeded | Partial | Failed

  function StatusOf(total: nat, inserted: nat, skipped: nat): ImportStatus {
    if inserted == total then Succeeded
    else if inserted > 0 && skipped > 0 then Partial
    else if inserted == 0 && skipped == total then Partial
    else Failed
  }

  lemma {:induction false} NewOrDuplicate(shown: seq<Shown>)
    ensures |Keep(IsNew(), shown)| + |Keep(IsDuplicate(), shown)| == |shown|
  {
    if |shown| > 0 {
      NewOrDuplicate(shown[..|shown| - 1]);
    }
  }

  lemma {:induction false} ShownOrInvalid(rows: seq<Row>, stored: set<string>, first: nat)
    ensures |ShowRows(rows, stored, first)| + |InvalidRows(rows, first)| == |rows|
  {
    if |rows| > 0 {
      ShownOrInvalid(rows[..|rows| - 1], stored, first);
    }
  }

  /** Nothing is lost: valid and invalid rows make up the file, inserted and skipped rows do, and no import can end in
      the failed status. */
  lemma {:induction false} EveryRowIsAccountedFor(source: string, parsed: Parsed, store: Store)
    ensures var r := BuildResponse(source, parsed, store);
      var inserted, skipped := CountsOf(r).newTransactions + CountsOf(r).newEvents, r.duplicates + r.invalidCount;
      && r.valid + r.invalidCount == r.total
      && inserted + skipped == r.total
      && !StatusOf(r.total, inserted, skipped).Failed?
  {
    var r := BuildResponse(source, parsed, store);
    ShownOrInvalid(parsed.transactions, Hashes(store.transactions), 1);
    ShownOrInvalid(parsed.events, Hashes(store.events), |parsed.transactions| + 1);
    NewOrDuplicate(r.transactions);
    NewOrDuplicate(r.events);
  }

  // ---------------------------------------------------------------- commit

  /** The rows a commit inserts. */
  function NewRows(shown: seq<Shown>): seq<Row> {
    Project(ShownRow(), Keep(IsNew(), shown))
  }

  function BlocksCommit(): Shown -> bool {
    (s: Shown) => !s.duplicate && s.row.fxPending && !s.row.mayStayPending
  }

  predicate HasPendingFx(r: Response) {
    Keep(BlocksCommit(), r.transactions) != [] || Keep(BlocksCommit(), r.events) != []
  }

  /** Inserting one by one under a unique index. */
  function InsertRows(table: seq<Row>, rows: seq<Row>): Result<seq<Row>>
    decreases |rows|
  {
    if |rows| == 0 then Ok(table)
    else if rows[0].hash in Hashes(table) then Refused(CONFLICT)
    else InsertRows(table + [rows[0]], rows[1..])
  }

  function CommitStep(store: Store, r: Response): Result<Store> {
    if HasPendingFx(r) then Refused(BAD_REQUEST)
    else
      var transactions :- InsertRows(store.transactions, NewRows(r.transactions));
      var events :- InsertRows(store.events, NewRows(r.events));
      Ok(Store(transactions, events))
  }

  lemma {:induction false} HashesOfBoth(a: seq<Row>, b: seq<Row>)
    ensures Hashes(a + b) == Hashes(a) + Hashes(b)
  {
    forall h ensures h in Hashes(a + b) <==> h in Hashes(a) || h in Hashes(b) {
      if h in Hashes(a) {
        var i :| 0 <= i < |a| && a[i].hash == h;
        assert (a + b)[i].hash == h;
      }
      if h in Hashes(b) {
        var i :| 0 <= i < |b| && b[i].hash == h;
        assert (a + b)[|a| + i].hash == h;
      }
    }
  }

  /** The index accepts rows exactly when their hashes are new and distinct; then all are appended. */
  lemma {:induction false} InsertsWhenFresh(table: seq<Row>, rows: seq<Row>)
    requires HashesAreUnique(table)
    ensures InsertRows(table, rows).Ok? <==> HashesAreUnique(rows) && Hashes(rows) !! Hashes(table)
    ensures InsertRows(table, rows).Ok? ==>
      InsertRows(table, rows) == Ok(table + rows) && HashesAreUnique(table + rows)
    ensures InsertRows(table, rows).Refused? ==> InsertRows(table, rows) == Refused(CONFLICT)
    decreases |rows|
  {
    if |rows| == 0 {
      assert table + rows == table;
    } else {
      var one := table + [rows[0]];
      assert rows == [rows[0]] + rows[1..];
      HashesOfBoth([rows[0]], rows[1..]);
      HashesOfBoth(table, [rows[0]]);
      assert Hashes([rows[0]]) == {rows[0].hash} by { assert [rows[0]][0].hash in Hashes([rows[0]]); }
      if rows[0].hash !in Hashes(table) {
        OneMoreUnique(table, rows[0]);
        InsertsWhenFresh(one, rows[1..]);
        FirstIsFresh(rows);
        assert one + rows[1..] == table + rows;
      }
    }
  }

  lemma {:induction false} OneMoreUnique(table: seq<Row>, row: Row)
    requires HashesAreUnique(table) && row.hash !in Hashes(table)
    ensures HashesAreUnique(table + [row])
  {
  }

  lemma {:induction false} FirstIsFresh(rows: seq<Row>)
    requires |rows| > 0
    ensures HashesAreUnique(rows) <==> HashesAreUnique(rows[1..]) && rows[0].hash !in Hashes(rows[1..])
  {
  }

  lemma {:induction false} NewRowsOneMore(shown: seq<Shown>, s: Shown)
    ensures NewRows(shown + [s]) == NewRows(shown) + if s.duplicate then [] else [s.row]
  {
  }

  /** The new rows of a stream: fresh hashes, each once, and with the stored ones all hashes of the stream. */
  lemma {:induction false} NewRowsAreFresh(rows: seq<Row>, stored: set<string>, first: nat)
    ensures var added := NewRows(ShowRows(rows, stored, first));
      HashesAreUnique(added) && Hashes(added) == BuiltHashes(rows) - stored
  {
    if |rows| > 0 {
      var init, row := rows[..|rows| - 1], rows[|rows| - 1];
      NewRowsAreFresh(init, stored, first);
      var before := NewRows(ShowRows(init, stored, first));
      var isNew := row.builds && row.hash !in stored && row.hash !in BuiltHashes(init);
      if row.builds {
        NewRowsOneMore(ShowRows(init, stored, first), Shown(first + |init|, row, !isNew));
      } else {
        assert ShowRows(rows, stored, first) == ShowRows(init, stored, first);
      }
      BuiltOneMore(rows, |init|);
      assert rows[..|init| + 1] == rows;
      if isNew {
        OneMoreUnique(before, row);
        HashesOfBoth(before, [row]);
        assert Hashes([row]) == {row.hash} by { assert [row][0].hash in Hashes([row]); }
      } else {
        assert before + [] == before;
      }
    }
  }

  /** Committing a preview built on the same tables never conflicts: hashes stay unique and the stored ones are the old
      ones plus those of every row that built. */
  lemma {:induction false} CommitAddsTheFile(source: string, parsed: Parsed, store: Store)
    requires StoreIsUnique(store) && !HasPendingFx(BuildResponse(source, parsed, store))
    ensures var done := CommitStep(store, BuildResponse(source, parsed, store));
      && done.Ok? && StoreIsUnique(done.value)
      && Hashes(done.value.transactions) == Hashes(store.transactions) + BuiltHashes(parsed.transactions)
      && Hashes(done.value.events) == Hashes(store.events) + BuiltHashes(parsed.events)
  {
    var r := BuildResponse(source, parsed, store);
    NewRowsAreFresh(parsed.transactions, Hashes(store.transactions), 1);
    NewRowsAreFresh(parsed.events, Hashes(store.events), |parsed.transactions| + 1);
    InsertsWhenFresh(store.transactions, NewRows(r.transactions));
    InsertsWhenFresh(store.events, NewRows(r.events));
    HashesOfBoth(store.transactions, NewRows(r.transactions));
    HashesOfBoth(store.events, NewRows(r.events));
  }

  lemma {:induction false} NothingNew(rows: seq<Row>, stored: set<string>, first: nat)
    requires BuiltHashes(rows) <= stored
    ensures NewRows(ShowRows(rows, stored, first)) == []
  {
    if |rows| > 0 {
      BuiltOneMore(rows, |rows| - 1);
      var init, row := rows[..|rows| - 1], rows[|rows| - 1];
      assert rows[..|rows|] == rows;
      NothingNew(init, stored, first);
      if row.builds {
        NewRowsOneMore(ShowRows(init, stored, first), Shown(first + |init|, row, true));
      } else {
        assert ShowRows(rows, stored, first) == ShowRows(init, stored, first);
      }
    }
  }

  /** Importing the same rows again inserts nothing. */
  lemma {:induction false} ImportingAgainInsertsNothing(source: string, parsed: Parsed, store: Store)
    requires StoreIsUnique(store) && !HasPendingFx(BuildResponse(source, parsed, store))
    ensures CommitStep(store, BuildResponse(source, parsed, store)).Ok?
    ensures var once := CommitStep(store, BuildResponse(source, parsed, store)).value;
      var again := BuildResponse(source, parsed, once);
      && CountsOf(again).newTransactions == 0 && CountsOf(again).newEvents == 0
      && CommitStep(once, again) == Ok(once)
  {
    CommitAddsTheFile(source, parsed, store);
    var once := CommitStep(store, BuildResponse(source, parsed, store)).value;
    var again := BuildResponse(source, parsed, once);
    NothingNew(parsed.transactions, Hashes(once.transactions), 1);
    NothingNew(parsed.events, Hashes(once.events), |parsed.transactions| + 1);
    NoneNewNoneBlocked(again.transactions);
    NoneNewNoneBlocked(again.events);
  }

  lemma {:induction false} NoneNewNoneBlocked(shown: seq<Shown>)
    requires NewRows(shown) == []
    ensures |Keep(IsNew(), shown)| == 0 && Keep(BlocksCommit(), shown) == []
  {
    assert |NewRows(shown)| == |Keep(IsNew(), shown)|;
    KeepMembers(IsNew(), shown);
    forall i | 0 <= i < |shown| ensures !BlocksCommit()(shown[i]) { assert shown[i] !in Keep(IsNew(), shown); }
    KeepNone(BlocksCommit(), shown);
  }

  // ---------------------------------------------------------------- the tables

  /** The record of one import. */
  datatype Batch = Batch(source: string, filename: string, total: nat, inserted: nat, skipped: nat, status: ImportStatus)

  function BatchOf(r: Response, filename: string): Batch {
    var inserted, skipped := CountsOf(r).newTransactions + CountsOf(r).newEvents, r.duplicates + r.invalidCount;
    Batch(r.source, filename, r.total, inserted, skipped, StatusOf(r.total, inserted, skipped))
  }

  class ImportTables {
    var transactions: seq<Row>
    var events: seq<Row>
    var batches: seq<Batch>

    function State(): Store
      reads this
    {
      Store(transactions, events)
    }

    constructor ()
      ensures State() == EMPTY_STORE && batches == []
    {
      transactions, events, batches := [], [], [];
    }

    /** Collect the rows to insert, leaving duplicates out. */
    static method RowsToInsert(shown: seq<Shown>) returns (rows: seq<Row>)
      ensures rows == NewRows(shown)
    {
      rows := [];
      for k := 0 to |shown|
        invariant rows == NewRows(shown[..k])
      {
        assert shown[..k + 1][..k] == shown[..k];
        if !shown[k].duplicate {
          rows := rows + [shown[k].row];
        }
      }
      assert shown[..|shown|] == shown;
    }

    method BulkInsertTransactions(rows: seq<Row>) returns (r: Result<()>)
      modifies this`transactions
      ensures match InsertRows(old(transactions), rows)
        case Ok(table) => transactions == table && r.Ok?
        case Refused(status) => r == Refused(status)
    {
      for k := 0 to |rows|
        invariant InsertRows(transactions, rows[k..]) == InsertRows(old(transactions), rows)
      {
        assert rows[k..][1..] == rows[k + 1..];
        if rows[k].hash in Hashes(transactions) {
          return Refused(CONFLICT);
        }
        transactions := transactions + [rows[k]];
      }
      return Ok(());
    }

    method BulkInsertEvents(rows: seq<Row>) returns (r: Result<()>)
      modifies this`events
      ensures match InsertRows(old(events), rows)
        case Ok(table) => events == table && r.Ok?
        case Refused(status) => r == Refused(status)
    {
      for k := 0 to |rows|
        invariant InsertRows(events, rows[k..]) == InsertRows(old(events), rows)
      {
        assert rows[k..][1..] == rows[k + 1..];
        if rows[k].hash in Hashes(events) {
          return Refused(CONFLICT);
        }
        events := events + [rows[k]];
      }
      return Ok(());
    }

    /** Insert the new rows of a preview under a batch record, or change nothing; answers how many went in. */
    method CommitPreview(filename: string, preview: Response) returns (r: Result<nat>)
      modifies this
      ensures match CommitStep(old(State()), preview)
        case Ok(store) =>
          && State() == store && batches == old(batches) + [BatchOf(preview, filename)]
          && r == Ok(BatchOf(preview, filename).inserted)
        case Refused(status) => State() == old(State()) && batches == old(batches) && r == Refused(status)
    {
      if HasPendingFx(preview) {
        return Refused(BAD_REQUEST);
      }
      var before, batchesBefore := State(), batches;
      batches := batches + [BatchOf(preview, filename)];
      var newTransactions := RowsToInsert(preview.transactions);
      var newEvents := RowsToInsert(preview.events);
      var inserted := BulkInsertTransactions(newTransactions);
      if inserted.Refused? {
        transactions, batches := before.transactions, batchesBefore;
        return Refused(inserted.status);
      }
      inserted := BulkInsertEvents(newEvents);
      if inserted.Refused? {
        transactions, events, batches := before.transactions, before.events, batchesBefore;
        return Refused(inserted.status);
      }
      return Ok(|newTransactions| + |newEvents|);
    }
  }
}
