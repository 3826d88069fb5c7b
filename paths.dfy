/**
 * File paths as the loader uses them: `os.path.join` in `get_files`, and
 * `Path(csv_file).stem[:-8]` as the table name in `load_csv_to_db`.
 * POSIX paths, separator '/'.
 */
module Paths {
  import opened Text

  /** How many trailing characters of the file stem the table name drops. */
  const SuffixLength := 8

  /**
   * The last component of `path`: the text after its last '/'
   * (`Path(path).name` for a path that does not end with '/').
   */
  function BaseName(path: string): (r: string)
  {
    path[LastIndexOf(path, '/') + 1..]
  }

  /** Python's `s.rfind(c)`: the position of the last `c`, or -1. */
  function LastIndexOf(s: string, c: char): (i: int)
    ensures -1 <= i < |s|
  {
    if s == "" then -1
    else if s[|s| - 1] == c then |s| - 1
    else LastIndexOf(s[..|s| - 1], c)
  }

  /** `rfind` finds the last occurrence: a `c` at the position, none after it, and -1 only when there is none. */
  lemma {:induction false} LastIndexOfIsLast(s: string, c: char)
    ensures var i := LastIndexOf(s, c);
      && (i >= 0 ==> s[i] == c)
      && (forall k :: i < k < |s| ==> s[k] != c)
      && (i == -1 <==> c !in s)
    decreases |s|
  {
    if s != "" && s[|s| - 1] != c {
      var init := s[..|s| - 1];
      LastIndexOfIsLast(init, c);
      assert forall k :: 0 <= k < |init| ==> s[k] == init[k];
      assert s == init + [s[|s| - 1]];
    }
  }

  /** Text without `c` appended to a string leaves its last `c` where it was. */
  lemma {:induction false} LastIndexOfAppend(s: string, tail: string, c: char)
    requires c !in tail
    ensures LastIndexOf(s + tail, c) == LastIndexOf(s, c)
    decreases |tail|
  {
    if tail != [] {
      var shorter := tail[..|tail| - 1];
      assert tail[|tail| - 1] in tail;
      assert (s + tail)[..|s + tail| - 1] == s + shorter;
      LastIndexOfAppend(s, shorter, c);
    } else {
      assert s + tail == s;
    }
  }

  /** The last component holds no '/'. */
  lemma BaseNameHasNoSeparator(path: string)
    ensures '/' !in BaseName(path)
  {
    LastIndexOfIsLast(path, '/');
    var i := LastIndexOf(path, '/');
    forall k | 0 <= k < |BaseName(path)|
      ensures BaseName(path)[k] != '/'
    {
      assert BaseName(path)[k] == path[i + 1 + k];
    }
  }

  /**
   * `PurePath.stem` of a file name: the name without its last suffix, where
   * the suffix starts at the last '.' unless that dot is the first or the
   * last character of the name.
   */
  function Stem(name: string): (r: string)
  {
    var i := LastIndexOf(name, '.');
    if 0 < i < |name| - 1 then name[..i] else name
  }

  /** `os.path.join(folder, name)` on POSIX. */
  function PathJoin(folder: string, name: string): (r: string)
  {
    if |name| > 0 && name[0] == '/' then name
    else if folder == "" || folder[|folder| - 1] == '/' then folder + name
    else folder + "/" + name
  }

  /** `Path(path).stem[:-8]`: the table a file is loaded into. */
  function TableName(path: string): (r: string)
  {
    DropLast(Stem(BaseName(path)), SuffixLength)
  }

  /**
   * The table name is the file's stem with its last 8 characters cut off;
   * a stem of 8 characters or fewer gives the empty name.
   */
  lemma TableNameCutsStem(path: string)
    ensures var stem := Stem(BaseName(path));
      && TableName(path) <= stem
      && (|stem| <= SuffixLength ==> TableName(path) == "")
      && (|stem| > SuffixLength ==> stem == TableName(path) + stem[|stem| - SuffixLength..])
  {
  }

  /** Appending text without a '/' to a path appends it to the last component. */
  lemma BaseNameAppend(path: string, tail: string)
    requires '/' !in tail
    ensures BaseName(path + tail) == BaseName(path) + tail
  {
    LastIndexOfAppend(path, tail, '/');
    var i := LastIndexOf(path, '/');
    assert (path + tail)[i + 1..] == path[i + 1..] + tail;
  }

  /** Joining a listed name to a folder: the last component is the name again. */
  lemma BaseNameOfJoin(folder: string, name: string)
    requires name != "" && '/' !in name
    ensures BaseName(PathJoin(folder, name)) == name
  {
    if folder == "" {
      BaseNameAppend("", name);
      assert "" + name == name;
    } else if folder[|folder| - 1] == '/' {
      BaseNameAppend(folder, name);
    } else {
      BaseNameAppend(folder + "/", name);
    }
  }

  /**
   * The table of a discovered file depends on the listed name only, not on
   * the folder it was found in.
   */
  lemma TableNameOfJoin(folder: string, name: string)
    requires name != "" && '/' !in name
    ensures TableName(PathJoin(folder, name)) == DropLast(Stem(name), SuffixLength)
  {
    BaseNameOfJoin(folder, name);
  }

  /** A dot that is neither first nor last starts the suffix the stem leaves out. */
  lemma StemDropsExtension(base: string, extension: string)
    requires base != "" && extension != "" && '.' !in extension
    ensures Stem(base + "." + extension) == base
  {
    var name := base + "." + extension;
    LastIndexOfAppend(base + ".", extension, '.');
    assert (base + ".")[|base|] == '.';
    assert LastIndexOf(name, '.') == |base|;
    assert name[..|base|] == base;
  }

  /**
   * A file named `<table>_dataset.csv` is loaded into `<table>`: the 8
   * characters dropped are `_dataset`.
   */
  lemma DatasetFileTable(folder: string, table: string)
    requires table != "" && '/' !in table
    ensures TableName(PathJoin(folder, table + "_dataset.csv")) == table
  {
    var stem := table + "_dataset";
    StemDropsExtension(stem, "csv");
    assert stem + "." + "csv" == table + "_dataset.csv";
    BaseNameOfJoin(folder, table + "_dataset.csv");
    assert stem[..|stem| - SuffixLength] == table;
  }

  /** A date-suffixed file keeps one character fewer than the part before the date. */
  lemma DateSuffixedFileTable()
    ensures TableName("data/orders_202401.csv") == "order"
  {
    var base := "order" + "s_202401";
    assert base[..|base| - SuffixLength] == "order";
    StemDropsExtension(base, "csv");
    assert base + "." + "csv" == base + ".csv";
    BaseNameOfJoin("data", base + ".csv");
    var path := PathJoin("data", base + ".csv");
    assert Stem(BaseName(path)) == base;
    assert DropLast(base, SuffixLength) == base[..|base| - SuffixLength];
    assert TableName(path) == "order";
    assert path == "data" + "/" + (base + ".csv");
    assert "data" + "/" + (base + ".csv") == "data/orders_202401.csv";
  }
}
