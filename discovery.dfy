/**
 * `get_files`: the paths of the entries of a folder whose names end with
 * the extension. The file system is an input: what `os.path.exists` and
 * `os.listdir` report for the folder.
 */
module Discovery {
  import opened Text
  import opened Paths

  /** What the file system reports for the folder. */
  datatype Folder =
    | Missing                       // `os.path.exists` is false
    | Unlistable                    // it exists, but `os.listdir` raises
    | Listed(names: seq<string>)    // `os.listdir`, in the order it returns

  /** The listed names that end with `extension`, each joined to the folder, in listing order. */
  function Matching(names: seq<string>, folder: string, extension: string): (r: seq<string>)
    ensures |r| <= |names|
  {
    if names == [] then []
    else
      var rest := Matching(names[1..], folder, extension);
      if EndsWith(names[0], extension) then [PathJoin(folder, names[0])] + rest else rest
  }

  /** `get_files(folder_path, file_extension)`; every failure gives `[]`. */
  function GetFiles(folder: Folder, path: string, extension: string): (r: seq<string>)
    ensures folder.Missing? || folder.Unlistable? ==> r == []
  {
    match folder
    case Missing => []
    case Unlistable => []
    case Listed(names) => Matching(names, path, extension)
  }

  /** A path is found exactly when some listed name ends with the extension and joins to it. */
  lemma {:induction false} MatchingMembers(names: seq<string>, folder: string, extension: string, p: string)
    ensures p in Matching(names, folder, extension) <==>
            exists k :: 0 <= k < |names| && EndsWith(names[k], extension) && p == PathJoin(folder, names[k])
  {
    if names != [] {
      MatchingMembers(names[1..], folder, extension, p);
      if p in Matching(names[1..], folder, extension) {
        var k :| 0 <= k < |names[1..]| && EndsWith(names[1..][k], extension) && p == PathJoin(folder, names[1..][k]);
        assert names[k + 1] == names[1..][k];
      }
      if exists k :: 0 <= k < |names| && EndsWith(names[k], extension) && p == PathJoin(folder, names[k]) {
        var k :| 0 <= k < |names| && EndsWith(names[k], extension) && p == PathJoin(folder, names[k]);
        if k > 0 {
          assert names[1..][k - 1] == names[k];
        }
      }
    }
  }

  /**
   * Listing order is kept: the files found in a listing are those found in
   * its first part followed by those found in the rest.
   */
  lemma {:induction false} MatchingAppend(first: seq<string>, second: seq<string>, folder: string, extension: string)
    ensures Matching(first + second, folder, extension) == Matching(first, folder, extension) + Matching(second, folder, extension)
    decreases |first|
  {
    if first == [] {
      assert first + second == second;
    } else {
      assert (first + second)[1..] == first[1..] + second;
      MatchingAppend(first[1..], second, folder, extension);
    }
  }

  /** A single listed name is found, joined to the folder, exactly when it ends with the extension. */
  lemma MatchingOne(name: string, folder: string, extension: string)
    ensures Matching([name], folder, extension) == if EndsWith(name, extension) then [PathJoin(folder, name)] else []
  {
    assert [name][1..] == [];
  }

  /**
   * The match is on the bare extension text, not on "." followed by it: with
   * extension "csv", a name such as `notes.xcsv` or `datacsv` is found too.
   */
  lemma BareExtensionMatch(name: string, folder: string, extension: string)
    requires EndsWith(name, extension)
    ensures GetFiles(Listed([name]), folder, extension) == [PathJoin(folder, name)]
  {
    MatchingOne(name, folder, extension);
  }

  /** For example, `notes.xcsv` is found by the extension "csv". */
  lemma NotesXcsvFound()
    ensures GetFiles(Listed(["notes.xcsv"]), "data", "csv") == ["data/notes.xcsv"]
  {
    var name := "notes.x" + "csv";
    assert EndsWith(name, "csv");
    BareExtensionMatch(name, "data", "csv");
    assert PathJoin("data", name) == "data/notes.xcsv";
    assert name == "notes.xcsv";
  }

  /**
   * Every discovered path is loaded into the table named by its listed
   * name alone: the folder does not change table names.
   */
  lemma {:induction false} DiscoveredTables(names: seq<string>, folder: string, extension: string, k: nat)
    requires forall j :: 0 <= j < |names| ==> names[j] != "" && '/' !in names[j]
    requires k < |Matching(names, folder, extension)|
    ensures exists j ::
              && 0 <= j < |names|
              && EndsWith(names[j], extension)
              && TableName(Matching(names, folder, extension)[k]) == DropLast(Stem(names[j]), SuffixLength)
  {
    var p := Matching(names, folder, extension)[k];
    MatchingMembers(names, folder, extension, p);
    var j :| 0 <= j < |names| && EndsWith(names[j], extension) && p == PathJoin(folder, names[j]);
    TableNameOfJoin(folder, names[j]);
  }
}
