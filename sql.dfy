/**
 * The SQL text the loader builds (src/store_data.py): the column
 * definition of `generate_columns_definition`, the `CREATE TABLE` query of
 * `create_table` and the `INSERT` query of `insert_data`. Each builder is
 * paired with a parser that reads its output back, and the round-trip
 * lemmas say the text carries exactly what it was built from.
 */
module Sql {
  import opened Wrappers
  import opened Text

  /** The storage type given to every column, whatever its content. */
  const ColumnType := "VARCHAR(255)"
  /** What follows a column name in the definition. */
  const TypeSuffix := " " + ColumnType
  /** The parameter marker of the driver's `execute`. */
  const Placeholder := "%s"
  const CreatePrefix := "CREATE TABLE IF NOT EXISTS "
  const InsertPrefix := "INSERT INTO "
  const ValuesKeyword := " VALUES "

  // ---------------------------------------------------------------------
  // Column definition

  /** `f'{col} VARCHAR(255)'` for each header column, in header order. */
  function ColumnEntries(columns: seq<string>): (r: seq<string>)
  {
    seq(|columns|, i requires 0 <= i < |columns| => columns[i] + TypeSuffix)
  }

  /** `generate_columns_definition`: the entries joined by ", ". */
  function ColumnsDefinition(columns: seq<string>): (r: string)
    ensures r == "" <==> columns == []
  {
    Join(ColumnEntries(columns), ", ")
  }

  /** A piece of a definition: a column name followed by the type. */
  predicate IsEntry(piece: string)
  {
    EndsWith(piece, TypeSuffix)
  }

  function EntryColumn(piece: string): (col: string)
    requires IsEntry(piece)
  {
    piece[..|piece| - |TypeSuffix|]
  }

  /** A piece after the first: a space, then an entry. */
  predicate IsSpacedEntry(piece: string)
  {
    |piece| > 0 && piece[0] == ' ' && IsEntry(piece[1..])
  }

  /**
   * The column names listed by a definition, or None when `d` is not a
   * list of `name VARCHAR(255)` entries separated by ", ".
   */
  function DefinitionColumns(d: string): (r: Option<seq<string>>)
  {
    if d == "" then Some([])
    else
      var pieces := Split(d, ',');
      if IsEntry(pieces[0]) && forall k :: 1 <= k < |pieces| ==> IsSpacedEntry(pieces[k]) then
        Some(seq(|pieces|, k requires 0 <= k < |pieces| && (k == 0 ==> IsEntry(pieces[0])) && (k > 0 ==> IsSpacedEntry(pieces[k])) =>
          if k == 0 then EntryColumn(pieces[0]) else EntryColumn(pieces[k][1..])))
      else None
  }

  /** Cut at its commas, a definition gives its entries, all but the first after a space. */
  lemma {:induction false} DefinitionPieces(columns: seq<string>)
    requires columns != []
    requires forall k :: 0 <= k < |columns| ==> ',' !in columns[k]
    ensures Split(ColumnsDefinition(columns), ',') == [ColumnEntries(columns)[0]] + Prefixed(" ", ColumnEntries(columns)[1..])
  {
    var entries := ColumnEntries(columns);
    var pieces := [entries[0]] + Prefixed(" ", entries[1..]);
    JoinCommaSpace(entries);
    assert ',' !in TypeSuffix;
    forall k | 0 <= k < |pieces| ensures ',' !in pieces[k] {
      if k == 0 {
        assert pieces[0] == columns[0] + TypeSuffix;
      } else {
        assert pieces[k] == " " + entries[k];
        assert entries[k] == columns[k] + TypeSuffix;
      }
    }
    SplitJoin(pieces, ',');
  }

  /**
   * The definition names exactly the header columns, in header order, each
   * typed `VARCHAR(255)`, and nothing else (for column names without a comma,
   * so that the commas in the text are the separators).
   */
  lemma DefinitionListsColumns(columns: seq<string>)
    requires forall k :: 0 <= k < |columns| ==> ',' !in columns[k]
    ensures DefinitionColumns(ColumnsDefinition(columns)) == Some(columns)
  {
    if columns != [] {
      var entries := ColumnEntries(columns);
      var pieces := [entries[0]] + Prefixed(" ", entries[1..]);
      DefinitionPieces(columns);
      assert IsEntry(pieces[0]) && EntryColumn(pieces[0]) == columns[0] by {
        assert pieces[0] == columns[0] + TypeSuffix;
      }
      forall k | 1 <= k < |pieces| ensures IsSpacedEntry(pieces[k]) && EntryColumn(pieces[k][1..]) == columns[k] {
        assert pieces[k] == " " + (columns[k] + TypeSuffix);
        assert pieces[k][1..] == columns[k] + TypeSuffix;
      }
      var d := ColumnsDefinition(columns);
      assert d != "" && Split(d, ',') == pieces;
      var listed := seq(|pieces|, k requires 0 <= k < |pieces| && (k == 0 ==> IsEntry(pieces[0])) && (k > 0 ==> IsSpacedEntry(pieces[k])) =>
        if k == 0 then EntryColumn(pieces[0]) else EntryColumn(pieces[k][1..]));
      assert listed == columns;
      assert DefinitionColumns(d) == Some(listed);
    }
  }

  /** An entry is its column name followed by the type. */
  lemma EntryParts(piece: string)
    requires IsEntry(piece)
    ensures piece == EntryColumn(piece) + TypeSuffix
  {
  }

  /** The pieces of a string that reads as a definition are the entries of what it lists. */
  lemma ListedPieces(d: string, columns: seq<string>)
    requires d != "" && DefinitionColumns(d) == Some(columns)
    ensures Split(d, ',') == [ColumnEntries(columns)[0]] + Prefixed(" ", ColumnEntries(columns)[1..])
  {
    var pieces := Split(d, ',');
    var entries := ColumnEntries(columns);
    var spaced := [entries[0]] + Prefixed(" ", entries[1..]);
    assert |spaced| == |pieces|;
    forall k | 0 <= k < |pieces| ensures spaced[k] == pieces[k] {
      if k == 0 {
        EntryParts(pieces[0]);
        assert columns[0] == EntryColumn(pieces[0]);
      } else {
        var p := pieces[k][1..];
        EntryParts(p);
        assert columns[k] == EntryColumn(p);
        assert pieces[k] == " " + p;
        assert spaced[k] == " " + entries[k];
      }
    }
  }

  /** Conversely, a string that reads as a definition is the definition of what it lists. */
  lemma DefinitionOfListedColumns(d: string, columns: seq<string>)
    requires DefinitionColumns(d) == Some(columns)
    ensures ColumnsDefinition(columns) == d
  {
    if d != "" {
      ListedPieces(d, columns);
      JoinSplit(d, ',');
      JoinCommaSpace(ColumnEntries(columns));
    }
  }

  // ---------------------------------------------------------------------
  // CREATE TABLE

  /** `create_table`'s `f'CREATE TABLE IF NOT EXISTS {table_name} ({columns});'`. */
  function CreateTableQuery(table: string, columns: string): (q: string)
  {
    CreatePrefix + table + " (" + columns + ");"
  }

  /** The table name and the column text of a `CREATE TABLE` query, or None. */
  function ParseCreateTableQuery(q: string): (r: Option<(string, string)>)
  {
    if !StartsWith(q, CreatePrefix) then None
    else
      var rest := q[|CreatePrefix|..];
      var i := IndexOf(rest, '(');
      if 1 <= i && i + 3 <= |rest| && rest[i - 1] == ' ' && rest[|rest| - 2..] == ");" then
        Some((rest[..i - 1], rest[i + 1..|rest| - 2]))
      else None
  }

  /**
   * The query creates the table it was given, with the column text it was
   * given (for a table name without a parenthesis).
   */
  lemma CreateTableQueryNamesTable(table: string, columns: string)
    requires '(' !in table
    ensures ParseCreateTableQuery(CreateTableQuery(table, columns)) == Some((table, columns))
  {
    var q := CreateTableQuery(table, columns);
    assert q[..|CreatePrefix|] == CreatePrefix;
    var rest := q[|CreatePrefix|..];
    var i := |table| + 1;
    assert rest == table + " (" + columns + ");";
    assert rest[i] == '(' && rest[i - 1] == ' ';
    assert forall k :: 0 <= k < |table| ==> rest[k] == table[k];
    assert IndexOf(rest, '(') == i;
    assert rest[..i - 1] == table;
    assert rest[|rest| - 2..] == ");";
    assert rest[i + 1..|rest| - 2] == columns;
  }

  /** Conversely, a string that reads as a CREATE query is the query for what it names. */
  lemma CreateTableQueryOfParse(q: string, table: string, columns: string)
    requires ParseCreateTableQuery(q) == Some((table, columns))
    ensures CreateTableQuery(table, columns) == q
  {
    var rest := q[|CreatePrefix|..];
    var i := IndexOf(rest, '(');
    assert q == CreatePrefix + rest;
    assert rest == rest[..i - 1] + " (" + rest[i + 1..|rest| - 2] + ");";
  }

  /** Creating from a definition: the query gives back the header columns. */
  lemma CreateTableQueryColumns(table: string, columns: seq<string>)
    requires '(' !in table
    requires forall k :: 0 <= k < |columns| ==> ',' !in columns[k]
    ensures ParseCreateTableQuery(CreateTableQuery(table, ColumnsDefinition(columns))).Some?
    ensures DefinitionColumns(ParseCreateTableQuery(CreateTableQuery(table, ColumnsDefinition(columns))).value.1) == Some(columns)
  {
    CreateTableQueryNamesTable(table, ColumnsDefinition(columns));
    DefinitionListsColumns(columns);
  }

  // ---------------------------------------------------------------------
  // INSERT

  /** `', '.join(['%s'] * n)`. */
  function Placeholders(n: nat): (r: string)
  {
    Join(seq(n, _ => Placeholder), ", ")
  }

  /** How many markers a placeholder list holds, or None when `s` is not one. */
  function PlaceholderCount(s: string): (r: Option<nat>)
  {
    if s == "" then Some(0)
    else
      var pieces := Split(s, ',');
      if pieces[0] == Placeholder && forall k :: 1 <= k < |pieces| ==> pieces[k] == " " + Placeholder then
        Some(|pieces|)
      else None
  }

  /** The placeholder list has exactly one `%s` per column, separated by ", ". */
  lemma PlaceholdersCount(n: nat)
    ensures PlaceholderCount(Placeholders(n)) == Some(n)
  {
    if n > 0 {
      var marks := seq(n, _ => Placeholder);
      var pieces := [marks[0]] + Prefixed(" ", marks[1..]);
      JoinCommaSpace(marks);
      forall k | 0 <= k < |pieces| ensures ',' !in pieces[k] {
        assert k > 0 ==> pieces[k] == " " + Placeholder;
      }
      SplitJoin(pieces, ',');
      assert |Placeholders(n)| > 0;
    }
  }

  /** Conversely, a placeholder list of `n` markers is `Placeholders(n)`. */
  lemma PlaceholdersOfCount(s: string, n: nat)
    requires PlaceholderCount(s) == Some(n)
    ensures Placeholders(n) == s
  {
    if s != "" {
      var pieces := Split(s, ',');
      JoinSplit(s, ',');
      var marks := seq(n, _ => Placeholder);
      JoinCommaSpace(marks);
      var spaced := [marks[0]] + Prefixed(" ", marks[1..]);
      assert spaced == pieces;
    }
  }

  /** `insert_data`'s `f'INSERT INTO {table_name} VALUES ({placeholders})'`. */
  function InsertQuery(table: string, width: nat): (q: string)
  {
    InsertPrefix + table + ValuesKeyword + "(" + Placeholders(width) + ")"
  }

  /** The table name and the number of markers of an `INSERT` query, or None. */
  function ParseInsertQuery(q: string): (r: Option<(string, nat)>)
  {
    if !StartsWith(q, InsertPrefix) then None
    else
      var rest := q[|InsertPrefix|..];
      var i := IndexOf(rest, '(');
      if |ValuesKeyword| <= i && i + 2 <= |rest| && rest[i - |ValuesKeyword|..i] == ValuesKeyword
         && rest[|rest| - 1] == ')' then
        match PlaceholderCount(rest[i + 1..|rest| - 1])
        case Some(n) => Some((rest[..i - |ValuesKeyword|], n))
        case None => None
      else None
  }

  /**
   * The query inserts into the table it was given, one `%s` per column
   * (for a table name without a parenthesis).
   */
  lemma InsertQueryNamesTable(table: string, width: nat)
    requires '(' !in table
    ensures ParseInsertQuery(InsertQuery(table, width)) == Some((table, width))
  {
    var q := InsertQuery(table, width);
    assert q[..|InsertPrefix|] == InsertPrefix;
    var rest := q[|InsertPrefix|..];
    var i := |table| + |ValuesKeyword|;
    assert rest == table + ValuesKeyword + "(" + Placeholders(width) + ")";
    assert rest[i] == '(';
    assert forall k :: 0 <= k < |table| ==> rest[k] == table[k];
    assert forall k :: |table| <= k < i ==> rest[k] == ValuesKeyword[k - |table|];
    assert IndexOf(rest, '(') == i;
    assert rest[i - |ValuesKeyword|..i] == ValuesKeyword;
    assert rest[..i - |ValuesKeyword|] == table;
    assert rest[|rest| - 1] == ')';
    assert rest[i + 1..|rest| - 1] == Placeholders(width);
    PlaceholdersCount(width);
  }

  /** The INSERT query, its parts grouped from the right. */
  lemma InsertQueryParts(table: string, width: nat)
    ensures InsertQuery(table, width) == InsertPrefix + (table + (ValuesKeyword + ("(" + (Placeholders(width) + ")"))))
  {
  }

  /** A string cut at `j` and at `i`, where a parenthesised tail starts at `i`. */
  lemma Reassemble(rest: string, j: nat, i: nat)
    requires j <= i && i + 2 <= |rest| && rest[i] == '(' && rest[|rest| - 1] == ')'
    ensures rest == rest[..j] + (rest[j..i] + ("(" + (rest[i + 1..|rest| - 1] + ")")))
  {
    var tail := rest[i..];
    assert tail == [tail[0]] + (tail[1..|tail| - 1] + [tail[|tail| - 1]]);
    assert rest == rest[..j] + (rest[j..i] + tail);
  }

  /** Conversely, a string that reads as an INSERT query is the query for its table and marker count. */
  lemma InsertQueryOfParse(q: string, table: string, width: nat)
    requires ParseInsertQuery(q) == Some((table, width))
    ensures InsertQuery(table, width) == q
  {
    var rest := q[|InsertPrefix|..];
    var i := IndexOf(rest, '(');
    var j := i - |ValuesKeyword|;
    var marks := rest[i + 1..|rest| - 1];
    assert 0 <= j && i + 2 <= |rest| && rest[i] == '(' && rest[|rest| - 1] == ')';
    assert rest[..j] == table && rest[j..i] == ValuesKeyword;
    assert PlaceholderCount(marks) == Some(width);
    Reassemble(rest, j, i);
    PlaceholdersOfCount(marks, width);
    InsertQueryParts(table, width);
    assert q == InsertPrefix + rest;
  }
}
