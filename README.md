# CSV-to-MySQL loader, modelled in Dafny

This project models the loading stage of a small ingestion pipeline, the
script `src/store_data.py`. The script finds the CSV files of a data folder
and connects to MySQL. For each file it:

- derives a table name from the file name;
- reads the file with pandas;
- when the file has data, creates a table with one `VARCHAR(255)` column per
  header column and inserts the rows.

At the end it closes the connection. Everything the script delegates to a
library is an input of the model:

- what `os.path.exists`/`os.listdir` report (`Discovery.Folder`);
- whether the connection succeeds;
- what `pd.read_csv` does with each file (`Loader.CsvRead`);
- which driver call raises (`Loader.FileOutcome`).

Modules, one per file:

- `Text` (`text.dfy`): the Python string operations the script uses:
  `sep.join`, `endswith` and the slice `s[:-n]`. It also holds `find` and
  `split`, which the script does not use: they are helpers for the model's
  parsers of the query texts.
- `Paths` (`paths.dfy`): POSIX `os.path.join`, `Path.name`, `Path.stem`
  and the table name `Path(f).stem[:-8]`.
- `Sql` (`sql.dfy`): `generate_columns_definition` and the
  `CREATE TABLE` and `INSERT` query texts. Each builder has a parser for
  its output. Round-trip lemmas in both directions tie each builder to its
  parser: the column definition, the placeholder list, the CREATE query and
  the INSERT query.
- `Discovery` (`discovery.dfy`): `get_files`.
- `Database` (`database.dfy`): `MySQLDatabaseManager` as a class. It keeps
  the connection state (no connection, open, closed) and a `log` of the
  calls made on the driver. A ghost journal `errors` holds what the manager
  reports through `logger.error`.
- `Loader` (`loader.dfy`):
  - `load_csv` as a function;
  - `CSVToMySQLLoader` as a class whose `load_csv_to_db` loop is proved
    against the specification functions `RunOps`, `RunErrors` and `RunSkips`;
  - `main` as `Run`.

Three behaviours of the code worth knowing:

- The table name drops exactly 8 characters from the stem
  (`Path(f).stem[:-8]`). A file `<t>_dataset.csv` loads into `<t>`, since
  `_dataset` has 8 characters. A file `orders_202401.csv` loads into
  `order`: `"orders_202401"[:-8]` is `"order"`, because `_202401` has only 7
  characters. `Paths.DatasetFileTable` and `Paths.DateSuffixedFileTable`
  state both.
- Failure isolation covers only the three errors `load_csv` catches. Any
  other exception from `pd.read_csv` leaves the loop, and the remaining
  files are not processed. `main` then never reaches `close`.
- Inserts are not isolated per row. The first failing `execute` ends
  `insert_data`: later rows are not sent, and `insert_data` issues no
  commit.

## Model

| member | source | states |
|---|---|---|
| Text.Join | src/store_data.py:104 | Python's `sep.join`; `Text.JoinSplit`, `Text.SplitJoin` and `Text.JoinCommaSpace` state what it gives |
| Text.EndsWith | src/store_data.py:115 | Python's `endswith`; `Discovery.MatchingOne` and `Discovery.BareExtensionMatch` state how discovery uses it |
| Text.DropLast | src/store_data.py:94 | `s[:-n]` is "" when `s` has at most `n` characters, and otherwise has exactly `n` characters fewer |
| Text.JoinSplit | src/store_data.py:104 | joining the pieces of `s.split(c)` with `c` gives `s` back |
| Text.SplitJoin | src/store_data.py:104 | splitting a `c`-join of parts that hold no `c` gives the parts back |
| Text.JoinCommaSpace | src/store_data.py:104 | `", ".join(xs)` is the `","`-join of `xs` with a space before every part but the first |
| Paths.BaseName | src/store_data.py:94 | `Path(f).name`, the text after the last '/'; `Paths.BaseNameHasNoSeparator`, `Paths.BaseNameAppend` and `Paths.BaseNameOfJoin` state it |
| Paths.Stem | src/store_data.py:94 | `Path.stem`, the name without its last extension; `Paths.StemDropsExtension` states it |
| Paths.PathJoin | src/store_data.py:116 | POSIX `os.path.join`; `Paths.BaseNameOfJoin` and `Paths.TableNameOfJoin` state what it gives |
| Paths.TableName | src/store_data.py:94 | `Path(f).stem[:-8]`; `Paths.TableNameCutsStem`, `Paths.DatasetFileTable` and `Paths.DateSuffixedFileTable` state it |
| Paths.LastIndexOf | src/store_data.py:94 | `rfind`, which `Path.name` and `Path.stem` use; `Paths.LastIndexOfIsLast` and `Paths.LastIndexOfAppend` state it |
| Paths.LastIndexOfIsLast | src/store_data.py:94 | `rfind` gives a position holding the character with none after it, and -1 exactly when the character is absent |
| Paths.LastIndexOfAppend | src/store_data.py:94 | appending text without the character leaves its last position unchanged |
| Paths.BaseNameHasNoSeparator | src/store_data.py:94 | the last path component holds no '/' |
| Paths.BaseNameAppend | src/store_data.py:94 | text without '/' appended to a path extends its last component |
| Paths.BaseNameOfJoin | src/store_data.py:116 | the last component of `os.path.join(folder, name)` is `name` for a listed name |
| Paths.TableNameCutsStem | src/store_data.py:94 | the table name is the stem minus its last 8 characters, and "" for a stem of 8 characters or fewer |
| Paths.TableNameOfJoin | src/store_data.py:94 | a discovered file's table name depends on its listed name only |
| Paths.StemDropsExtension | src/store_data.py:94 | the stem of `base.ext` is `base` |
| Paths.DatasetFileTable | src/store_data.py:94 | `folder/<t>_dataset.csv` is loaded into table `<t>` |
| Paths.DateSuffixedFileTable | src/store_data.py:94 | `data/orders_202401.csv` is loaded into table `order` |
| Sql.ColumnEntries | src/store_data.py:104 | the list `[f'{col} VARCHAR(255)' for col in df.columns]`; `Sql.EntryParts` and `Sql.DefinitionPieces` state its entries |
| Sql.ColumnsDefinition | src/store_data.py:101-104 | the definition is empty exactly when there are no columns |
| Sql.DefinitionPieces | src/store_data.py:104 | cut at its commas, the definition is the entries, all but the first after a space |
| Sql.EntryParts | src/store_data.py:104 | an entry is its column name followed by ` VARCHAR(255)` |
| Sql.DefinitionListsColumns | src/store_data.py:101-104 | the definition lists exactly the header columns in header order, each typed `VARCHAR(255)` |
| Sql.ListedPieces | src/store_data.py:104 | the pieces of any text that reads as a definition are the entries of the columns it lists |
| Sql.DefinitionOfListedColumns | src/store_data.py:101-104 | any text that reads as a definition is the definition of the columns it lists |
| Sql.CreateTableQuery | src/store_data.py:39 | the CREATE query text; `Sql.CreateTableQueryNamesTable` and `Sql.CreateTableQueryOfParse` state it |
| Sql.CreateTableQueryNamesTable | src/store_data.py:39 | the CREATE query reads back as the table and the column text it was built from |
| Sql.CreateTableQueryColumns | src/store_data.py:39 | the CREATE query for a header reads back as that header's columns |
| Sql.CreateTableQueryOfParse | src/store_data.py:39 | any text that reads as a CREATE query is the CREATE query for the table and column text it reads as |
| Sql.Placeholders | src/store_data.py:50 | the placeholder list; `Sql.PlaceholdersCount` and `Sql.PlaceholdersOfCount` state it |
| Sql.PlaceholdersCount | src/store_data.py:50 | the placeholder list holds exactly `n` markers `%s` separated by ", " |
| Sql.PlaceholdersOfCount | src/store_data.py:50 | any list of `n` markers is the placeholder list for `n` |
| Sql.InsertQuery | src/store_data.py:51 | the INSERT query text; `Sql.InsertQueryNamesTable` and `Sql.InsertQueryOfParse` state it |
| Sql.InsertQueryNamesTable | src/store_data.py:50-51 | the INSERT query reads back as its table and one `%s` per column |
| Sql.InsertQueryOfParse | src/store_data.py:50-51 | any text that reads as an INSERT query is the INSERT query for the table and marker count it reads as |
| Discovery.Matching | src/store_data.py:115-116 | the listed names ending with the extension, joined to the folder, in listing order; `Discovery.MatchingMembers`, `Discovery.MatchingAppend` and `Discovery.MatchingOne` state it |
| Discovery.GetFiles | src/store_data.py:106-126 | a missing or unlistable folder gives `[]` |
| Discovery.MatchingMembers | src/store_data.py:115-116 | a path is found exactly when some listed name ends with the extension and joins to it |
| Discovery.MatchingAppend | src/store_data.py:115-116 | listing order is kept: the files of a listing are those of its first part, then those of the rest |
| Discovery.MatchingOne | src/store_data.py:115-116 | one listed name is found, joined to the folder, exactly when it ends with the extension |
| Discovery.BareExtensionMatch | src/store_data.py:115 | the match is on the bare extension text, without a dot |
| Discovery.NotesXcsvFound | src/store_data.py:115 | `notes.xcsv` is found by the extension `csv` |
| Discovery.DiscoveredTables | src/store_data.py:115-116 | every discovered path is loaded into the table named by some listed name ending with the extension |
| Database.RowInserts | src/store_data.py:54-55 | one `execute(insert_query, tuple(row))` per row in row order; `Database.InsertAllRows` and `Database.InsertStopsAtFailingRow` state it |
| Database.InsertOps | src/store_data.py:48-60 | the calls `insert_data` sends; `Database.InsertAllRows`, `Database.InsertStopsAtFailingRow`, `Database.InsertOpsTargetTable` and `Database.InsertOpsReadBack` state them |
| Database.CreateOps | src/store_data.py:37-46 | the one call `create_table` sends; `Loader.TableOpsCreateThenInsert` states it |
| Database.AfterClose | src/store_data.py:62-66 | the connection state after `close`; `Database.CloseIdempotent` states it |
| Database.CloseOps | src/store_data.py:62-66 | the calls `close` sends; `Database.CloseIdempotent` states them |
| Database.InsertAllRows | src/store_data.py:54-56 | when no row insert fails (the commit itself may), one insert per row in row order with that row's values, then one commit |
| Database.InsertStopsAtFailingRow | src/store_data.py:54-60 | a failing row insert is the last call: later rows are not sent and `insert_data` issues no commit |
| Database.InsertOpsTargetTable | src/store_data.py:50-56 | for any table, every statement is the insert query for the table with one marker per column; a commit comes last and only when no row failed |
| Database.InsertOpsReadBack | src/store_data.py:50-55 | every statement reads back as an insert into the table with one `%s` per column |
| Database.CloseIdempotent | src/store_data.py:62-66 | a second close changes nothing and sends nothing |
| Database.DatabaseManager.constructor | src/store_data.py:22-35 | a failed connect leaves no connection and logs the error instead of raising |
| Database.DatabaseManager.CreateTable | src/store_data.py:37-46 | sends the CREATE query on an open connection; a driver error or a closed connection is logged and swallowed |
| Database.DatabaseManager.InsertData | src/store_data.py:48-60 | sends the row inserts and the commit up to the first failing call; the failure is logged and swallowed |
| Database.DatabaseManager.Close | src/store_data.py:62-66 | closes an open connection only; otherwise nothing changes |
| Loader.LoadCsv | src/store_data.py:75-89 | data exactly for a parsed file; `None` exactly for not found, empty and unparsable; any other exception propagates |
| Loader.FileOps | src/store_data.py:94-99 | the driver calls for one file; `Loader.LoadedFileCreatesThenInserts`, `Loader.CreateFailureSwallowed` and `Loader.SkippedFileIsolated` state them |
| Loader.FileErrors | src/store_data.py:94-99 | the manager errors one file logs; `Loader.CreateFailureSwallowed` and `Loader.SkippedFileIsolated` state them |
| Loader.FileSkips | src/store_data.py:81-89 | the skip `load_csv` logs for one file; `Loader.SkippedFileIsolated` states it |
| Loader.Processed | src/store_data.py:93-95 | how many files the loop gets through; `Loader.ProcessedStopsAtRaise`, `Loader.ProcessedAt` and `Loader.RaisesBeforeEnd` state it |
| Loader.Collect | src/store_data.py:93 | the effects of the first `n` files in file order; `Loader.CollectConcat`, `Loader.CollectAround` and `Loader.CollectSkipping` state it |
| Loader.RunOps | src/store_data.py:91-99 | the driver calls of the whole loop; `Loader.CsvLoader.LoadCsvToDb` and `Loader.SkippedFileIsolated` state them |
| Loader.RunErrors | src/store_data.py:91-99 | the manager errors of the whole loop; `Loader.CsvLoader.LoadCsvToDb` and `Loader.SkippedFileIsolated` state them |
| Loader.RunSkips | src/store_data.py:91-99 | the skips of the whole loop; `Loader.CsvLoader.LoadCsvToDb` and `Loader.SkippedFileIsolated` state them |
| Loader.ProcessedStopsAtRaise | src/store_data.py:93-95 | the loop gets through exactly the files before the first read that raises |
| Loader.ProcessedAt | src/store_data.py:93-95 | a reached file is the last one processed exactly when its read raises |
| Loader.RaisesBeforeEnd | src/store_data.py:93-95 | the loop raises exactly when it stops before the last file |
| Loader.ProcessedConcat | src/store_data.py:93 | after files that do not raise, the loop goes on with the rest as if starting there |
| Loader.ProcessedAll | src/store_data.py:93 | over files none of which raises, every file is processed |
| Loader.ProcessedAround | src/store_data.py:93 | the loop gets through a file that does not raise and goes on after it |
| Loader.CollectConcat | src/store_data.py:93 | the effects of the files come in file order: those of a first part, then those of the rest |
| Loader.CollectAround | src/store_data.py:93-99 | what one file gives stands between what the files before and after it give |
| Loader.CollectSkipping | src/store_data.py:93-99 | a file that gives nothing drops out of the run |
| Loader.SkippedFileIsolated | src/store_data.py:93-99 | a skipped file sends nothing and logs no database error; the files after it are processed as if it were absent, and its skip is logged in place |
| Loader.TableOpsCreateThenInsert | src/store_data.py:97-99 | for any table and header, the CREATE for the table with the header's definition comes first, then only the insert query for that table with one marker per column |
| Loader.TableOpsReadBack | src/store_data.py:97-99 | those calls read back as a CREATE of the table listing the header's columns, then inserts into that table with one `%s` per column |
| Loader.LoadedFileCreatesThenInserts | src/store_data.py:93-99 | for any file with data, `create_table` comes first for the file's table and header, then only `insert_data`'s query for the same table |
| Loader.LoadedFileReadsBack | src/store_data.py:93-99 | a loaded file's calls read back as a CREATE of its table listing its header, then inserts into that table |
| Loader.CreateFailureSwallowed | src/store_data.py:97-99 | a failing CREATE changes no driver call (the inserts still follow) and only adds its logged error |
| Loader.CsvLoader.constructor | src/store_data.py:70-73 | the loader keeps the manager and the file list it is given |
| Loader.CsvLoader.LoadCsvToDb | src/store_data.py:91-99 | the driver calls, logged errors and skips are those of the processed files in file order; it raises exactly when a read raises |
| Loader.CsvLoader.LoadFile | src/store_data.py:94-99 | one file: on data, the CREATE then the inserts for its table; on a skip, no driver call and the skip logged |
| Loader.Run | src/store_data.py:128-154 | without a connection nothing is sent and only the connect failure is logged; with one, every file's calls and errors and then the close, unless a read raises, when the connection stays open |

## Left out

- `src/collect_data.py` (the dataset download) and `logs/log_config.py`
  (the log sink) are not part of this model. They are network, file-system
  and logging I/O.
- pandas parsing is not modelled. A read is an input: data with its header
  and rows, or one of the failures. Cell values are kept as their text;
  pandas dtypes are not modelled.
- MySQL semantics are not modelled: SQL execution, the connection settings,
  `cursor.close` and `is_connected`. Whether a driver call raises is an
  input.
- `load_dotenv`, the environment variables and `EXTERNAL_DATA_DIR` are not
  modelled. The data folder is the parameter `dataDir` of `Loader.Run`.
- `logger.info` and `logger.warning` calls are not modelled: they change
  nothing.
- The `logger.error` calls of `get_files` are not modelled. Those of the
  manager are the ghost `errors` journal. Those of `load_csv` are the ghost
  skip list.
- Discovery.GetFiles: the only failure modelled inside the `try` is
  `os.listdir` raising; nothing else in that block can raise on strings.
- Paths.BaseName: trailing slashes and `.` components are not normalised
  the way `pathlib` does. This never matters for the paths `get_files`
  builds from listed names.
- Database.DatabaseManager.CreateTable: requires a connection object. With
  none, the source raises `AttributeError` outside its handler; `main`
  never calls it then.
- Database.DatabaseManager.InsertData: requires a connection object, for
  the same reason.
- Sql.DefinitionListsColumns: stated for column names without a comma. A
  comma in a header name makes the definition ambiguous to read back.
- Sql.CreateTableQueryNamesTable: stated for table names without `(`.
- Sql.InsertQueryNamesTable: stated for table names without `(`.
- Database.InsertOpsReadBack: stated for table names without `(`, as
  `Sql.InsertQueryNamesTable`.
- Loader.TableOpsReadBack: stated for table names without `(` and header
  names without a comma, as the round trips above.
- Loader.LoadedFileReadsBack: stated for table names without `(` and header
  names without a comma, as the round trips above.
