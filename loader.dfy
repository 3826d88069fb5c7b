/**
 * `CSVToMySQLLoader` and `main`: for each discovered file, derive the table
 * name, read the file, and on data create the table and insert the rows.
 * What pandas and the driver do with each file is an input (`FileOutcome`).
 */
module Loader {
  import opened Wrappers
  import opened Sql
  import opened Paths
  import opened Discovery
  import opened Database

  /** The extension `main` looks for. */
  const CsvExtension := "csv"

  /** What `pd.read_csv(path)` does. */
  datatype CsvRead =
    | Parsed(frame: Frame)
    | FileNotFound     // FileNotFoundError
    | EmptyData        // pandas.errors.EmptyDataError
    | ParserFailure    // pandas.errors.ParserError
    | OtherFailure     // any other exception; `load_csv` does not catch it

  /** Why `load_csv` returned `None`. */
  datatype SkipReason = NotFound | Empty | Unparsable

  /** `load_csv`'s result: the data, `None` (with the logged reason), or a propagating exception. */
  datatype LoadResult = Loaded(frame: Frame) | Skipped(reason: SkipReason) | Raised

  /** A file `load_csv` skipped, as its log line names it. */
  datatype Skip = Skip(path: string, reason: SkipReason)

  /** Everything outside the program that decides how one file goes. */
  datatype FileOutcome = FileOutcome(
    read: CsvRead,             // what `pd.read_csv` does
    createFails: bool,         // whether the CREATE statement raises
    insertFault: Option<nat>)  // which insert-data driver call raises (see `InsertRaises`)

  /**
   * `load_csv`: the data when pandas parses the file; `None` exactly for a
   * missing file, an empty file and a parse error; any other exception
   * propagates.
   */
  function LoadCsv(read: CsvRead): (r: LoadResult)
    ensures r.Loaded? <==> read.Parsed?
    ensures r.Loaded? ==> r.frame == read.frame
    ensures r.Skipped? <==> read.FileNotFound? || read.EmptyData? || read.ParserFailure?
    ensures r.Raised? <==> read.OtherFailure?
  {
    match read
    case Parsed(frame) => Loaded(frame)
    case FileNotFound => Skipped(NotFound)
    case EmptyData => Skipped(Empty)
    case ParserFailure => Skipped(Unparsable)
    case OtherFailure => Raised
  }

  /** The driver calls made for one file: on data, the CREATE and then the inserts, both for its table. */
  function FileOps(path: string, outcome: FileOutcome): (ops: seq<Op>)
  {
    match LoadCsv(outcome.read)
    case Loaded(frame) =>
      var table := TableName(path);
      CreateOps(table, ColumnsDefinition(frame.columns)) + InsertOps(table, frame, outcome.insertFault)
    case _ => []
  }

  /** The errors the manager logs for one file. */
  function FileErrors(path: string, outcome: FileOutcome): (errors: seq<DbError>)
  {
    match LoadCsv(outcome.read)
    case Loaded(frame) =>
      var table := TableName(path);
      (if outcome.createFails then [CreateFailed(table)] else [])
      + (if InsertRaises(frame, outcome.insertFault) then [InsertFailed(table)] else [])
    case _ => []
  }

  /** The skip `load_csv` logs for one file. */
  function FileSkips(path: string, outcome: FileOutcome): (skips: seq<Skip>)
  {
    match LoadCsv(outcome.read)
    case Skipped(reason) => [Skip(path, reason)]
    case _ => []
  }

  /**
   * How many files `load_csv_to_db` gets through: the position of the first
   * read that raises, or all of them.
   */
  function Processed(outcomes: seq<FileOutcome>): (n: nat)
    ensures n <= |outcomes|
  {
    if outcomes == [] || outcomes[0].read.OtherFailure? then 0
    else 1 + Processed(outcomes[1..])
  }

  /** The files processed are those before the first read that raises. */
  lemma {:induction false} ProcessedStopsAtRaise(outcomes: seq<FileOutcome>)
    ensures var n := Processed(outcomes);
      && (forall j :: 0 <= j < n ==> !outcomes[j].read.OtherFailure?)
      && (n < |outcomes| ==> outcomes[n].read.OtherFailure?)
    decreases |outcomes|
  {
    if outcomes != [] && !outcomes[0].read.OtherFailure? {
      var rest := outcomes[1..];
      ProcessedStopsAtRaise(rest);
      forall j | 1 <= j < Processed(outcomes) ensures !outcomes[j].read.OtherFailure? {
        assert outcomes[j] == rest[j - 1];
      }
    }
  }

  /** Going file by file: the file at `i`, reached, is the last one processed exactly when its read raises. */
  lemma ProcessedAt(outcomes: seq<FileOutcome>, i: nat)
    requires i <= Processed(outcomes) && i < |outcomes|
    ensures outcomes[i].read.OtherFailure? <==> Processed(outcomes) == i
  {
    ProcessedStopsAtRaise(outcomes);
  }

  /** Whether the read of some file raises out of `load_csv`. */
  predicate Raises(outcomes: seq<FileOutcome>)
  {
    exists i :: 0 <= i < |outcomes| && outcomes[i].read.OtherFailure?
  }

  /** What `per` gives for each of the first `n` files, in file order. */
  function Collect<T>(files: seq<string>, outcomes: seq<FileOutcome>, per: (string, FileOutcome) -> seq<T>, n: nat): (r: seq<T>)
    requires |files| == |outcomes| && n <= |files|
  {
    if n == 0 then [] else Collect(files, outcomes, per, n - 1) + per(files[n - 1], outcomes[n - 1])
  }

  /** The driver calls of `load_csv_to_db`. */
  function RunOps(files: seq<string>, outcomes: seq<FileOutcome>): (ops: seq<Op>)
    requires |files| == |outcomes|
  {
    Collect(files, outcomes, FileOps, Processed(outcomes))
  }

  /** The errors the manager logs during `load_csv_to_db`. */
  function RunErrors(files: seq<string>, outcomes: seq<FileOutcome>): (errors: seq<DbError>)
    requires |files| == |outcomes|
  {
    Collect(files, outcomes, FileErrors, Processed(outcomes))
  }

  /** The skips logged during `load_csv_to_db`. */
  function RunSkips(files: seq<string>, outcomes: seq<FileOutcome>): (skips: seq<Skip>)
    requires |files| == |outcomes|
  {
    Collect(files, outcomes, FileSkips, Processed(outcomes))
  }

  /** The run raises exactly when it stops before the last file. */
  lemma RaisesBeforeEnd(outcomes: seq<FileOutcome>)
    ensures Raises(outcomes) <==> Processed(outcomes) < |outcomes|
  {
    ProcessedStopsAtRaise(outcomes);
  }

  /**
   * A run goes file by file: one that gets through every file of `first`
   * goes on with `second` as if it had started there.
   */
  lemma {:induction false} ProcessedConcat(first: seq<FileOutcome>, second: seq<FileOutcome>)
    requires !Raises(first)
    ensures Processed(first + second) == |first| + Processed(second)
    decreases |first|
  {
    if first != [] {
      assert (first + second)[0] == first[0];
      assert (first + second)[1..] == first[1..] + second;
      assert !Raises(first[1..]) by {
        forall j | 0 <= j < |first[1..]| ensures !first[1..][j].read.OtherFailure? {
          assert first[1..][j] == first[j + 1];
        }
      }
      ProcessedConcat(first[1..], second);
    } else {
      assert first + second == second;
    }
  }

  /** What the first `n` files give depends on those files alone. */
  lemma {:induction false} CollectPrefix<T>(files: seq<string>, outcomes: seq<FileOutcome>,
                                            files': seq<string>, outcomes': seq<FileOutcome>,
                                            per: (string, FileOutcome) -> seq<T>, n: nat)
    requires |files| == |outcomes| && |files'| == |outcomes'| && n <= |files| && n <= |files'|
    requires files[..n] == files'[..n] && outcomes[..n] == outcomes'[..n]
    ensures Collect(files, outcomes, per, n) == Collect(files', outcomes', per, n)
    decreases n
  {
    if n > 0 {
      assert files[n - 1] == files[..n][n - 1] && files'[n - 1] == files'[..n][n - 1];
      assert outcomes[n - 1] == outcomes[..n][n - 1] && outcomes'[n - 1] == outcomes'[..n][n - 1];
      assert files[..n - 1] == files[..n][..n - 1] && files'[..n - 1] == files'[..n][..n - 1];
      assert outcomes[..n - 1] == outcomes[..n][..n - 1] && outcomes'[..n - 1] == outcomes'[..n][..n - 1];
      CollectPrefix(files, outcomes, files', outcomes', per, n - 1);
    }
  }

  /**
   * Files are processed one after another: over `first + second`, what the
   * files give is what all of `first` gives followed by what the first `k`
   * of `second` give.
   */
  lemma {:induction false} CollectConcat<T>(first: seq<string>, second: seq<string>,
                                            early: seq<FileOutcome>, late: seq<FileOutcome>,
                                            per: (string, FileOutcome) -> seq<T>, k: nat)
    requires |first| == |early| && |second| == |late| && k <= |second|
    ensures Collect(first + second, early + late, per, |first| + k)
            == Collect(first, early, per, |first|) + Collect(second, late, per, k)
    decreases k
  {
    if k == 0 {
      assert (first + second)[..|first|] == first[..|first|];
      assert (early + late)[..|first|] == early[..|first|];
      CollectPrefix(first + second, early + late, first, early, per, |first|);
    } else {
      CollectConcat(first, second, early, late, per, k - 1);
      assert (first + second)[|first| + k - 1] == second[k - 1];
      assert (early + late)[|first| + k - 1] == late[k - 1];
    }
  }

  /** What one file gives stands between what the files before it and the files after it give. */
  lemma CollectAroundAt<T>(before: seq<string>, path: string, after: seq<string>,
                           early: seq<FileOutcome>, outcome: FileOutcome, late: seq<FileOutcome>,
                           per: (string, FileOutcome) -> seq<T>, k: nat)
    requires |before| == |early| && |after| == |late| && k <= |late|
    ensures Collect(before + ([path] + after), early + ([outcome] + late), per, |before| + (1 + k))
            == Collect(before, early, per, |before|) + (per(path, outcome) + Collect(after, late, per, k))
  {
    CollectConcat(before, [path] + after, early, [outcome] + late, per, 1 + k);
    CollectConcat([path], after, [outcome], late, per, k);
    assert Collect([path], [outcome], per, 1) == per(path, outcome);
  }

  /** A run gets through files that do not raise, one more that does not, and then goes on. */
  lemma ProcessedAround(early: seq<FileOutcome>, outcome: FileOutcome, late: seq<FileOutcome>)
    requires !Raises(early) && !outcome.read.OtherFailure?
    ensures Processed(early + ([outcome] + late)) == |early| + 1 + Processed(late)
  {
    assert !Raises([outcome]);
    ProcessedConcat([outcome], late);
    ProcessedConcat(early, [outcome] + late);
  }

  /**
   * A run over `before`, one more file, and `after`, none of `before`
   * raising: what the middle file gives stands between what the two sides
   * give.
   */
  lemma CollectAround<T>(before: seq<string>, path: string, after: seq<string>,
                         early: seq<FileOutcome>, outcome: FileOutcome, late: seq<FileOutcome>,
                         per: (string, FileOutcome) -> seq<T>)
    requires |before| == |early| && |after| == |late|
    requires !Raises(early) && !outcome.read.OtherFailure?
    ensures Processed(early + ([outcome] + late)) == |early| + 1 + Processed(late)
    ensures Collect(before + ([path] + after), early + ([outcome] + late), per, Processed(early + ([outcome] + late)))
            == Collect(before, early, per, |before|) + (per(path, outcome) + Collect(after, late, per, Processed(late)))
  {
    ProcessedAround(early, outcome, late);
    CollectAroundAt(before, path, after, early, outcome, late, per, Processed(late));
  }

  /** A file that gives nothing drops out: the run goes on as if it were not there. */
  lemma CollectSkipping<T>(before: seq<string>, path: string, after: seq<string>,
                           early: seq<FileOutcome>, outcome: FileOutcome, late: seq<FileOutcome>,
                           per: (string, FileOutcome) -> seq<T>)
    requires |before| == |early| && |after| == |late|
    requires !Raises(early) && !outcome.read.OtherFailure? && per(path, outcome) == []
    ensures Collect(before + ([path] + after), early + ([outcome] + late), per, Processed(early + ([outcome] + late)))
            == Collect(before + after, early + late, per, Processed(early + late))
  {
    var k := Processed(late);
    CollectAround(before, path, after, early, outcome, late, per);
    ProcessedConcat(early, late);
    CollectConcat(before, after, early, late, per, k);
    var whole := Collect(before, early, per, |before|);
    var rest := Collect(after, late, per, k);
    assert per(path, outcome) + rest == rest;
    assert Processed(early + late) == |before| + k;
    assert Collect(before + after, early + late, per, Processed(early + late)) == whole + rest;
  }

  /** No run raises over files none of which raises. */
  lemma ProcessedAll(outcomes: seq<FileOutcome>)
    requires !Raises(outcomes)
    ensures Processed(outcomes) == |outcomes|
  {
    RaisesBeforeEnd(outcomes);
  }

  /**
   * Failure isolation: a file that `load_csv` skips (missing, empty or
   * unparsable) sends nothing to the database and logs no database error,
   * and the files after it are processed exactly as if it were not there;
   * the skip itself is logged in its place.
   */
  lemma SkippedFileIsolated(before: seq<string>, path: string, after: seq<string>,
                            early: seq<FileOutcome>, outcome: FileOutcome, late: seq<FileOutcome>)
    requires |before| == |early| && |after| == |late|
    requires !Raises(early)
    requires LoadCsv(outcome.read).Skipped?
    ensures RunOps(before + ([path] + after), early + ([outcome] + late)) == RunOps(before + after, early + late)
    ensures RunErrors(before + ([path] + after), early + ([outcome] + late)) == RunErrors(before + after, early + late)
    ensures RunSkips(before + ([path] + after), early + ([outcome] + late))
            == RunSkips(before, early) + ([Skip(path, LoadCsv(outcome.read).reason)] + RunSkips(after, late))
  {
    assert FileOps(path, outcome) == [] && FileErrors(path, outcome) == [];
    CollectSkipping(before, path, after, early, outcome, late, FileOps);
    CollectSkipping(before, path, after, early, outcome, late, FileErrors);
    CollectAround(before, path, after, early, outcome, late, FileSkips);
    ProcessedAll(early);
  }

  /**
   * For any table and header: the CREATE for `table` with the header's
   * definition comes first, and every later statement is the insert query
   * for `table` with one marker per column.
   */
  lemma TableOpsCreateThenInsert(table: string, frame: Frame, fault: Option<nat>)
    ensures var ops := CreateOps(table, ColumnsDefinition(frame.columns)) + InsertOps(table, frame, fault);
      && |ops| >= 2
      && ops[0] == Execute(CreateTableQuery(table, ColumnsDefinition(frame.columns)), [])
      && (forall i :: 1 <= i < |ops| && ops[i].Execute? ==> ops[i].sql == InsertQuery(table, |frame.columns|))
  {
    var inserts := InsertOps(table, frame, fault);
    var ops := CreateOps(table, ColumnsDefinition(frame.columns)) + inserts;
    assert |inserts| >= 1;
    forall i | 1 <= i < |ops| && ops[i].Execute?
      ensures ops[i].sql == InsertQuery(table, |frame.columns|)
    {
      assert ops[i] == inserts[i - 1];
    }
  }

  /**
   * The same calls read back: the first statement parses as a CREATE of
   * `table` whose definition lists the header's columns, and every later one
   * as an insert into `table` with one `%s` per column.
   */
  lemma TableOpsReadBack(table: string, frame: Frame, fault: Option<nat>)
    requires '(' !in table
    requires forall k :: 0 <= k < |frame.columns| ==> ',' !in frame.columns[k]
    ensures var ops := CreateOps(table, ColumnsDefinition(frame.columns)) + InsertOps(table, frame, fault);
      && |ops| >= 2
      && ops[0].Execute?
      && ParseCreateTableQuery(ops[0].sql) == Some((table, ColumnsDefinition(frame.columns)))
      && DefinitionColumns(ColumnsDefinition(frame.columns)) == Some(frame.columns)
      && (forall i :: 1 <= i < |ops| && ops[i].Execute? ==> ParseInsertQuery(ops[i].sql) == Some((table, |frame.columns|)))
  {
    var definition := ColumnsDefinition(frame.columns);
    var ops := CreateOps(table, definition) + InsertOps(table, frame, fault);
    TableOpsCreateThenInsert(table, frame, fault);
    assert ParseCreateTableQuery(ops[0].sql) == Some((table, definition)) by {
      CreateTableQueryNamesTable(table, definition);
    }
    assert DefinitionColumns(definition) == Some(frame.columns) by {
      DefinitionListsColumns(frame.columns);
    }
    InsertQueryNamesTable(table, |frame.columns|);
  }

  /**
   * For a file with data, the first call creates the table named after the
   * file with the file's header columns, and every later statement is the
   * insert query for that same table, one marker per column.
   */
  lemma LoadedFileCreatesThenInserts(path: string, outcome: FileOutcome)
    requires outcome.read.Parsed?
    ensures var ops := FileOps(path, outcome);
      var columns := outcome.read.frame.columns;
      && |ops| >= 2
      && ops[0] == Execute(CreateTableQuery(TableName(path), ColumnsDefinition(columns)), [])
      && (forall i :: 1 <= i < |ops| && ops[i].Execute? ==> ops[i].sql == InsertQuery(TableName(path), |columns|))
  {
    var table, frame := TableName(path), outcome.read.frame;
    assert FileOps(path, outcome) == CreateOps(table, ColumnsDefinition(frame.columns)) + InsertOps(table, frame, outcome.insertFault);
    TableOpsCreateThenInsert(table, frame, outcome.insertFault);
  }

  /**
   * The file's calls read back: the CREATE parses as its table with a
   * definition listing the header's columns, and every insert as one into
   * that table with one `%s` per column.
   */
  lemma LoadedFileReadsBack(path: string, outcome: FileOutcome)
    requires outcome.read.Parsed?
    requires '(' !in TableName(path)
    requires forall k :: 0 <= k < |outcome.read.frame.columns| ==> ',' !in outcome.read.frame.columns[k]
    ensures var ops := FileOps(path, outcome);
      var columns := outcome.read.frame.columns;
      && |ops| >= 2
      && ops[0].Execute?
      && ParseCreateTableQuery(ops[0].sql).Some?
      && ParseCreateTableQuery(ops[0].sql).value.0 == TableName(path)
      && DefinitionColumns(ParseCreateTableQuery(ops[0].sql).value.1) == Some(columns)
      && (forall i :: 1 <= i < |ops| && ops[i].Execute? ==> ParseInsertQuery(ops[i].sql) == Some((TableName(path), |columns|)))
  {
    var table, frame := TableName(path), outcome.read.frame;
    assert FileOps(path, outcome) == CreateOps(table, ColumnsDefinition(frame.columns)) + InsertOps(table, frame, outcome.insertFault);
    TableOpsReadBack(table, frame, outcome.insertFault);
  }

  /**
   * A failing CREATE is logged and swallowed: the file's driver calls,
   * inserts included, are the same whether or not it fails; only the logged
   * errors differ, by the CREATE failure for the file's table.
   */
  lemma CreateFailureSwallowed(path: string, outcome: FileOutcome)
    requires outcome.read.Parsed? && !outcome.createFails
    ensures FileOps(path, outcome.(createFails := true)) == FileOps(path, outcome)
    ensures FileErrors(path, outcome.(createFails := true)) == [CreateFailed(TableName(path))] + FileErrors(path, outcome)
  {
  }

  /**
   * Proof step of the `load_csv_to_db` loop: the journal before the loop,
   * then the earlier files' entries, then one more file's, regrouped so that
   * the last two form the next prefix of the run.
   */
  lemma RegroupLog<T>(a: seq<T>, b: seq<T>, c: seq<T>)
    ensures a + b + c == a + (b + c)
  {
  }

  class CsvLoader {
    const dbManager: DatabaseManager
    const csvFiles: seq<string>

    constructor (dbManager: DatabaseManager, csvFiles: seq<string>)
      ensures this.dbManager == dbManager && this.csvFiles == csvFiles
    {
      this.dbManager := dbManager;
      this.csvFiles := csvFiles;
    }

    /**
     * `load_csv_to_db`: each file in order; on data, the CREATE for the
     * file's table and then its inserts; a skipped file sends nothing. A read
     * that raises any other exception leaves the loop (`raised`), and the
     * remaining files are not processed.
     */
    method LoadCsvToDb(outcomes: seq<FileOutcome>) returns (raised: bool, ghost skips: seq<Skip>)
      requires |outcomes| == |csvFiles|
      requires dbManager.state == Open
      modifies dbManager
      ensures dbManager.state == Open
      ensures raised == (Processed(outcomes) < |outcomes|)
      ensures dbManager.log == old(dbManager.log) + RunOps(csvFiles, outcomes)
      ensures dbManager.errors == old(dbManager.errors) + RunErrors(csvFiles, outcomes)
      ensures skips == RunSkips(csvFiles, outcomes)
    {
      raised, skips := false, [];
      var i := 0;
      while i < |csvFiles|
        invariant 0 <= i <= Processed(outcomes)
        invariant dbManager.state == Open
        invariant dbManager.log == old(dbManager.log) + Collect(csvFiles, outcomes, FileOps, i)
        invariant dbManager.errors == old(dbManager.errors) + Collect(csvFiles, outcomes, FileErrors, i)
        invariant skips == Collect(csvFiles, outcomes, FileSkips, i)
      {
        var table := TableName(csvFiles[i]);
        var df := LoadCsv(outcomes[i].read);
        ProcessedAt(outcomes, i);
        if df.Raised? {
          raised := true;
          return;
        }
        ghost var skipped := LoadFile(csvFiles[i], table, df, outcomes[i]);
        skips := skips + skipped;
        RegroupLog(old(dbManager.log), Collect(csvFiles, outcomes, FileOps, i), FileOps(csvFiles[i], outcomes[i]));
        RegroupLog(old(dbManager.errors), Collect(csvFiles, outcomes, FileErrors, i), FileErrors(csvFiles[i], outcomes[i]));
        i := i + 1;
      }
    }

    /** The body of `load_csv_to_db`'s loop for a file whose read did not raise. */
    method LoadFile(path: string, table: string, df: LoadResult, outcome: FileOutcome) returns (ghost skipped: seq<Skip>)
      requires table == TableName(path) && df == LoadCsv(outcome.read) && !df.Raised?
      requires dbManager.state == Open
      modifies dbManager
      ensures dbManager.state == Open
      ensures dbManager.log == old(dbManager.log) + FileOps(path, outcome)
      ensures dbManager.errors == old(dbManager.errors) + FileErrors(path, outcome)
      ensures skipped == FileSkips(path, outcome)
    {
      if df.Loaded? {
        var columns := ColumnsDefinition(df.frame.columns);
        dbManager.CreateTable(table, columns, outcome.createFails);
        dbManager.InsertData(table, df.frame, outcome.insertFault);
        skipped := [];
      } else {
        skipped := [Skip(path, df.reason)];
      }
    }
  }

  /**
   * `main`: discover the CSV files of the data folder, connect, and only
   * with a connection load every file and close it. `raised` is an
   * exception escaping the loader; `close` is then never reached.
   */
  method Run(dataDir: string, folder: Folder, connects: bool, outcomes: seq<FileOutcome>)
      returns (db: DatabaseManager, raised: bool)
    requires |outcomes| == |GetFiles(folder, dataDir, CsvExtension)|
    ensures fresh(db)
    ensures raised == (connects && Processed(outcomes) < |outcomes|)
    ensures !connects ==> db.state == NoConnection && db.log == [] && db.errors == [ConnectFailed]
    ensures connects ==> db.errors == RunErrors(GetFiles(folder, dataDir, CsvExtension), outcomes)
    ensures connects ==> db.log == RunOps(GetFiles(folder, dataDir, CsvExtension), outcomes)
                                   + (if raised then [] else [CloseConnection])
    ensures connects ==> db.state == (if raised then Open else Closed)
  {
    var csvFiles := GetFiles(folder, dataDir, CsvExtension);
    db := new DatabaseManager(connects);
    raised := false;
    if db.state != NoConnection {
      var loader := new CsvLoader(db, csvFiles);
      ghost var skips;
      raised, skips := loader.LoadCsvToDb(outcomes);
      if raised {
        return;
      }
      db.Close();
    }
  }
}
