/** Folder provisioning: helpers that build folder names and create each folder under the
    project's `data` directory with `mkdir(exist_ok=True)`. The directory tree is the set
    of existing directory paths. */
module ProjectSetup {
  import opened Outcomes
  import opened Ascii
  import opened Decimal

  /** `data_path`: the `data` directory of the project (the working directory itself is
      left implicit). */
  const DataPath: string := "data"

  /** `data_path / name`. */
  function Child(name: string): string
  {
    DataPath + "/" + name
  }

  /** A path one level below `data_path`: its last component holds no separator. */
  predicate DirectlyUnderData(p: string)
  {
    |p| > |DataPath| + 1 && p[..|DataPath| + 1] == DataPath + "/" && '/' !in p[|DataPath| + 1..]
  }

  lemma ChildUnderData(name: string)
    requires |name| > 0 && '/' !in name
    ensures DirectlyUnderData(Child(name))
  {
    var p := Child(name);
    assert p[..|DataPath| + 1] == DataPath + "/";
    assert p[|DataPath| + 1..] == name;
  }

  lemma ChildInjective(a: string, b: string)
    requires Child(a) == Child(b)
    ensures a == b
  {
    var k := |DataPath| + 1;
    assert a == Child(a)[k..];
    assert b == Child(b)[k..];
  }

  // ---------------------------------------------------------------------------
  // Folder names.

  /** The folder of `create_folders_for_range` for one year: `data_path / str(year)`. */
  function YearFolder(year: int): string
  {
    Child(IntToString(year))
  }

  function RangeFolders(startYear: int, endYear: int): set<string>
  {
    set year | startYear <= year <= endYear :: YearFolder(year)
  }

  /** `str.replace(" ", "_")`. */
  function ReplaceSpaces(s: string): (r: string)
    ensures |r| == |s| && ' ' !in r
  {
    seq(|s|, i requires 0 <= i < |s| => if s[i] == ' ' then '_' else s[i])
  }

  /** The name `create_folders_from_list` gives one list item: lower-cased first when
      asked, then with spaces replaced when asked. */
  function FolderName(name: string, toLowercase: bool, removeSpaces: bool): string
  {
    var lowered := if toLowercase then Lower(name) else name;
    if removeSpaces then ReplaceSpaces(lowered) else lowered
  }

  function ListFolders(folderList: seq<string>, toLowercase: bool, removeSpaces: bool): set<string>
  {
    set i | 0 <= i < |folderList| :: Child(FolderName(folderList[i], toLowercase, removeSpaces))
  }

  /** The name `create_prefixed_folders` gives one list item: `f"{prefix}-{folder_name}"`. */
  function PrefixedName(prefix: string, name: string): string
  {
    prefix + "-" + name
  }

  function PrefixedFolders(folderList: seq<string>, prefix: string): set<string>
  {
    set i | 0 <= i < |folderList| :: Child(PrefixedName(prefix, folderList[i]))
  }

  /** The folder of `create_folders_periodically` for one index: `f"folder_{per}"`. */
  function PeriodicFolder(index: int): string
  {
    Child("folder_" + IntToString(index))
  }

  function PeriodicFolders(folderCount: int): set<string>
  {
    set index | 0 <= index < folderCount :: PeriodicFolder(index)
  }

  // ---------------------------------------------------------------------------
  // What the helpers create.

  lemma RangeFoldersEmpty(startYear: int, endYear: int)
    requires startYear > endYear
    ensures RangeFolders(startYear, endYear) == {}
  {
  }

  lemma YearFolderInjective(a: int, b: int)
    requires YearFolder(a) == YearFolder(b)
    ensures a == b
  {
    ChildInjective(IntToString(a), IntToString(b));
    IntToStringInjective(a, b);
  }

  /** `create_folders_for_range(s, e)` makes the folder `data/str(y)` exactly for the
      years `s <= y <= e`. */
  lemma RangeFoldersMembers(startYear: int, endYear: int)
    ensures forall year :: YearFolder(year) in RangeFolders(startYear, endYear) <==> startYear <= year <= endYear
  {
    forall year | YearFolder(year) in RangeFolders(startYear, endYear)
      ensures startYear <= year <= endYear
    {
      var y :| startYear <= y <= endYear && YearFolder(year) == YearFolder(y);
      YearFolderInjective(year, y);
    }
  }

  /** Every folder `create_folders_for_range` makes lies directly under `data`. */
  lemma RangeFoldersUnderData(startYear: int, endYear: int)
    ensures forall p :: p in RangeFolders(startYear, endYear) ==> DirectlyUnderData(p)
  {
    forall p | p in RangeFolders(startYear, endYear) ensures DirectlyUnderData(p) {
      var y :| startYear <= y <= endYear && p == YearFolder(y);
      assert '/' !in IntToString(y);
      ChildUnderData(IntToString(y));
    }
  }

  /** `create_folders_for_range(s, e)` makes one distinct folder per year. */
  lemma {:induction false} RangeFoldersCount(startYear: int, endYear: int)
    ensures |RangeFolders(startYear, endYear)| == if startYear <= endYear then endYear - startYear + 1 else 0
    decreases endYear - startYear
  {
    if startYear > endYear {
      RangeFoldersEmpty(startYear, endYear);
    } else {
      RangeFoldersCount(startYear, endYear - 1);
      var last := YearFolder(endYear);
      assert RangeFolders(startYear, endYear) == RangeFolders(startYear, endYear - 1) + {last} by {
        forall p | p in RangeFolders(startYear, endYear) ensures p in RangeFolders(startYear, endYear - 1) + {last} {
          var y :| startYear <= y <= endYear && p == YearFolder(y);
          if y < endYear {
            assert p in RangeFolders(startYear, endYear - 1);
          }
        }
      }
      RangeFoldersMembers(startYear, endYear - 1);
      assert last !in RangeFolders(startYear, endYear - 1);
    }
  }

  lemma PeriodicFoldersEmpty(folderCount: int)
    requires folderCount <= 0
    ensures PeriodicFolders(folderCount) == {}
  {
  }

  lemma PeriodicFolderInjective(a: int, b: int)
    requires PeriodicFolder(a) == PeriodicFolder(b)
    ensures a == b
  {
    var prefix := "folder_";
    ChildInjective(prefix + IntToString(a), prefix + IntToString(b));
    assert (prefix + IntToString(a))[|prefix|..] == IntToString(a);
    assert (prefix + IntToString(b))[|prefix|..] == IntToString(b);
    IntToStringInjective(a, b);
  }

  /** `create_folders_periodically(n, _)` makes exactly `data/folder_0` up to
      `data/folder_{n-1}`, none when `n <= 0`. */
  lemma PeriodicFoldersMembers(folderCount: int)
    ensures forall index :: PeriodicFolder(index) in PeriodicFolders(folderCount) <==> 0 <= index < folderCount
  {
    forall index | PeriodicFolder(index) in PeriodicFolders(folderCount)
      ensures 0 <= index < folderCount
    {
      var i :| 0 <= i < folderCount && PeriodicFolder(index) == PeriodicFolder(i);
      PeriodicFolderInjective(index, i);
    }
  }

  /** Every folder `create_folders_periodically` makes lies directly under `data`. */
  lemma PeriodicFoldersUnderData(folderCount: int)
    ensures forall p :: p in PeriodicFolders(folderCount) ==> DirectlyUnderData(p)
  {
    forall p | p in PeriodicFolders(folderCount) ensures DirectlyUnderData(p) {
      var i :| 0 <= i < folderCount && p == PeriodicFolder(i);
      var name := "folder_" + IntToString(i);
      assert '/' !in name;
      ChildUnderData(name);
    }
  }

  /** `create_folders_periodically(n, _)` makes `n` distinct folders when `n > 0`. */
  lemma {:induction false} PeriodicFoldersCount(folderCount: int)
    ensures |PeriodicFolders(folderCount)| == if folderCount > 0 then folderCount else 0
    decreases folderCount
  {
    if folderCount <= 0 {
      PeriodicFoldersEmpty(folderCount);
    } else {
      PeriodicFoldersCount(folderCount - 1);
      var last := PeriodicFolder(folderCount - 1);
      assert PeriodicFolders(folderCount) == PeriodicFolders(folderCount - 1) + {last} by {
        forall p | p in PeriodicFolders(folderCount) ensures p in PeriodicFolders(folderCount - 1) + {last} {
          var i :| 0 <= i < folderCount && p == PeriodicFolder(i);
          if i < folderCount - 1 {
            assert p in PeriodicFolders(folderCount - 1);
          }
        }
      }
      PeriodicFoldersMembers(folderCount - 1);
      assert last !in PeriodicFolders(folderCount - 1);
    }
  }

  /** With `remove_spaces` the name has no space; with `to_lowercase` no upper-case
      letter; with neither flag it is the list item itself. Every character is the
      item's character, lower-cased and with a space turned into `_` as asked. */
  lemma FolderNameRules(name: string, toLowercase: bool, removeSpaces: bool)
    ensures var r := FolderName(name, toLowercase, removeSpaces);
      && |r| == |name|
      && (removeSpaces ==> ' ' !in r)
      && (toLowercase ==> forall i :: 0 <= i < |r| ==> !IsUpper(r[i]))
      && (!toLowercase && !removeSpaces ==> r == name)
      && (forall i :: 0 <= i < |r| ==>
            var c := if toLowercase then LowerChar(name[i]) else name[i];
            r[i] == if removeSpaces && c == ' ' then '_' else c)
  {
  }

  /** Lower-casing and replacing spaces commute, so the order of the two steps does not
      change the name. */
  lemma LowerThenReplaceCommute(name: string)
    ensures ReplaceSpaces(Lower(name)) == Lower(ReplaceSpaces(name))
  {
  }

  /** The folders `data/<name>` for a sequence of names. */
  function ChildSet(names: seq<string>): set<string>
  {
    set i | 0 <= i < |names| :: Child(names[i])
  }

  /** Adding a name adds its folder. */
  lemma ChildSetSnoc(names: seq<string>)
    requires names != []
    ensures ChildSet(names) == ChildSet(names[..|names| - 1]) + {Child(names[|names| - 1])}
  {
    var n := |names| - 1;
    var init := names[..n];
    forall p | p in ChildSet(names) ensures p in ChildSet(init) + {Child(names[n])} {
      var i :| 0 <= i < |names| && p == Child(names[i]);
      if i < n {
        assert init[i] == names[i];
      }
    }
    forall p | p in ChildSet(init) ensures p in ChildSet(names) {
      var i :| 0 <= i < n && p == Child(init[i]);
      assert init[i] == names[i];
    }
  }

  /** A name that differs from all earlier ones has a folder of its own. */
  lemma ChildSetFresh(names: seq<string>, name: string)
    requires forall i :: 0 <= i < |names| ==> names[i] != name
    ensures Child(name) !in ChildSet(names)
  {
    if Child(name) in ChildSet(names) {
      var i :| 0 <= i < |names| && Child(name) == Child(names[i]);
      ChildInjective(name, names[i]);
    }
  }

  /** Pairwise distinct names give one folder each. */
  lemma {:induction false} ChildSetCount(names: seq<string>)
    requires forall i, j :: 0 <= i < j < |names| ==> names[i] != names[j]
    ensures |ChildSet(names)| == |names|
    decreases |names|
  {
    if names == [] {
      assert ChildSet(names) == {};
    } else {
      var n := |names| - 1;
      var init := names[..n];
      ChildSetCount(init);
      ChildSetSnoc(names);
      ChildSetFresh(init, names[n]);
    }
  }

  /** Items whose folder names are pairwise distinct get one folder each, so the list
      helper makes exactly as many folders as the list has items. */
  lemma ListFoldersCount(folderList: seq<string>, toLowercase: bool, removeSpaces: bool)
    requires forall i, j :: 0 <= i < j < |folderList| ==>
      FolderName(folderList[i], toLowercase, removeSpaces) != FolderName(folderList[j], toLowercase, removeSpaces)
    ensures |ListFolders(folderList, toLowercase, removeSpaces)| == |folderList|
  {
    var names := seq(|folderList|, i requires 0 <= i < |folderList| => FolderName(folderList[i], toLowercase, removeSpaces));
    forall p | p in ListFolders(folderList, toLowercase, removeSpaces) ensures p in ChildSet(names) {
      var i :| 0 <= i < |folderList| && p == Child(FolderName(folderList[i], toLowercase, removeSpaces));
      assert p == Child(names[i]);
    }
    forall p | p in ChildSet(names) ensures p in ListFolders(folderList, toLowercase, removeSpaces) {
      var i :| 0 <= i < |names| && p == Child(names[i]);
      assert p == Child(FolderName(folderList[i], toLowercase, removeSpaces));
    }
    assert ListFolders(folderList, toLowercase, removeSpaces) == ChildSet(names);
    ChildSetCount(names);
  }

  /** The prefix is joined with a hyphen of its own: prefix `data-` and name `csv` give
      the folder `data/data--csv`. */
  lemma PrefixedNameExample()
    ensures Child(PrefixedName("data-", "csv")) == "data/data--csv"
  {
  }

  /** Distinct list items give distinct prefixed folders. */
  lemma PrefixedFolderInjective(prefix: string, a: string, b: string)
    requires Child(PrefixedName(prefix, a)) == Child(PrefixedName(prefix, b))
    ensures a == b
  {
    ChildInjective(PrefixedName(prefix, a), PrefixedName(prefix, b));
    var k := |prefix| + 1;
    assert PrefixedName(prefix, a)[k..] == a;
    assert PrefixedName(prefix, b)[k..] == b;
  }

  /** Distinct list items get one prefixed folder each. */
  lemma PrefixedFoldersCount(folderList: seq<string>, prefix: string)
    requires forall i, j :: 0 <= i < j < |folderList| ==> folderList[i] != folderList[j]
    ensures |PrefixedFolders(folderList, prefix)| == |folderList|
  {
    var names := seq(|folderList|, i requires 0 <= i < |folderList| => PrefixedName(prefix, folderList[i]));
    forall p | p in PrefixedFolders(folderList, prefix) ensures p in ChildSet(names) {
      var i :| 0 <= i < |folderList| && p == Child(PrefixedName(prefix, folderList[i]));
      assert p == Child(names[i]);
    }
    forall p | p in ChildSet(names) ensures p in PrefixedFolders(folderList, prefix) {
      var i :| 0 <= i < |names| && p == Child(names[i]);
      assert p == Child(PrefixedName(prefix, folderList[i]));
    }
    assert PrefixedFolders(folderList, prefix) == ChildSet(names);
    forall i, j | 0 <= i < j < |names| ensures names[i] != names[j] {
      if names[i] == names[j] {
        PrefixedFolderInjective(prefix, folderList[i], folderList[j]);
      }
    }
    ChildSetCount(names);
  }

  /** The list and prefix helpers only ever create folders under `data`
      (a list item that holds `/` names a deeper path). */
  lemma AllUnderData(folderList: seq<string>, prefix: string, toLowercase: bool, removeSpaces: bool, p: string)
    requires p in ListFolders(folderList, toLowercase, removeSpaces) || p in PrefixedFolders(folderList, prefix)
    ensures |p| >= |DataPath| + 1 && p[..|DataPath| + 1] == DataPath + "/"
  {
    var name :| p == Child(name);
    assert p[..|DataPath| + 1] == DataPath + "/";
  }

  // ---------------------------------------------------------------------------
  // The directory tree.

  /** The largest number of whole seconds whose nanoseconds fit in a signed 64-bit
      integer: `time.sleep` converts its argument to such a count before it waits. */
  const MaxSleepSeconds: int := 9223372036

  /** The error `time.sleep(seconds)` raises for an integer argument, if any: the
      conversion to nanoseconds overflows first, then a negative duration is refused. */
  function SleepError(seconds: int): (r: Option<Escaped>)
    ensures r.None? <==> 0 <= seconds <= MaxSleepSeconds
    ensures r == Some(ValueError) <==> -MaxSleepSeconds <= seconds < 0
    ensures r == Some(OverflowError) <==> seconds < -MaxSleepSeconds || MaxSleepSeconds < seconds
  {
    if seconds < -MaxSleepSeconds || MaxSleepSeconds < seconds then Some(OverflowError)
    else if seconds < 0 then Some(ValueError)
    else None
  }

  class ProjectTree {
    var dirs: set<string>

    /** Importing the module creates `data_path` unless it exists. */
    constructor (existing: set<string>)
      ensures dirs == existing + {DataPath}
    {
      dirs := existing + {DataPath};
    }

    /** `path.mkdir(exist_ok=True)`: adds the directory; an existing one is no error. */
    method Mkdir(path: string)
      modifies this
      ensures dirs == old(dirs) + {path}
    {
      dirs := dirs + {path};
    }

    /** `create_folders_for_range`: one folder per year from `startYear` to `endYear`,
        both included. */
    method CreateFoldersForRange(startYear: int, endYear: int)
      modifies this
      ensures dirs == old(dirs) + RangeFolders(startYear, endYear)
    {
      var year := startYear;
      while year <= endYear
        invariant startYear <= year
        invariant startYear > endYear ==> year == startYear
        invariant startYear <= endYear ==> year <= endYear + 1
        invariant dirs == old(dirs) + RangeFolders(startYear, year - 1)
      {
        Mkdir(YearFolder(year));
        assert RangeFolders(startYear, year) == RangeFolders(startYear, year - 1) + {YearFolder(year)};
        year := year + 1;
      }
      if startYear <= endYear {
        assert year - 1 == endYear;
      } else {
        RangeFoldersEmpty(startYear, year - 1);
        RangeFoldersEmpty(startYear, endYear);
      }
    }

    /** `create_folders_from_list`: the name is rebound to its lower-case form, then to
        its form without spaces, as the flags ask. */
    method CreateFoldersFromList(folderList: seq<string>, toLowercase: bool, removeSpaces: bool)
      modifies this
      ensures dirs == old(dirs) + ListFolders(folderList, toLowercase, removeSpaces)
    {
      for i := 0 to |folderList|
        invariant dirs == old(dirs) + ListFolders(folderList[..i], toLowercase, removeSpaces)
      {
        var folderName := folderList[i];
        if toLowercase {
          folderName := Lower(folderName);
        }
        if removeSpaces {
          folderName := ReplaceSpaces(folderName);
        }
        Mkdir(Child(folderName));
        assert folderList[..i + 1][..i] == folderList[..i];
        assert ListFolders(folderList[..i + 1], toLowercase, removeSpaces)
          == ListFolders(folderList[..i], toLowercase, removeSpaces) + {Child(folderName)};
      }
      assert folderList[..|folderList|] == folderList;
    }

    /** `create_prefixed_folders`. */
    method CreatePrefixedFolders(folderList: seq<string>, prefix: string)
      modifies this
      ensures dirs == old(dirs) + PrefixedFolders(folderList, prefix)
    {
      for i := 0 to |folderList|
        invariant dirs == old(dirs) + PrefixedFolders(folderList[..i], prefix)
      {
        Mkdir(Child(PrefixedName(prefix, folderList[i])));
        assert folderList[..i + 1][..i] == folderList[..i];
        assert PrefixedFolders(folderList[..i + 1], prefix)
          == PrefixedFolders(folderList[..i], prefix) + {Child(PrefixedName(prefix, folderList[i]))};
      }
      assert folderList[..|folderList|] == folderList;
    }

    /** `create_folders_periodically`: `folder_0` up to `folder_{folderCount - 1}`, with a
        pause of `durationSeconds` after each folder. The pause itself is not modelled, but
        a duration `time.sleep` refuses raises its error right after the first folder is
        made. */
    method CreateFoldersPeriodically(folderCount: int, durationSeconds: int) returns (outcome: Outcome)
      modifies this
      ensures 0 <= durationSeconds <= MaxSleepSeconds ==>
        outcome == Completed && dirs == old(dirs) + PeriodicFolders(folderCount)
      ensures SleepError(durationSeconds).Some? && folderCount > 0 ==>
        outcome == Raised(SleepError(durationSeconds).value) && dirs == old(dirs) + PeriodicFolders(1)
      ensures SleepError(durationSeconds).Some? && folderCount <= 0 ==> outcome == Completed && dirs == old(dirs)
    {
      var per := 0;
      while per < folderCount
        invariant 0 <= per
        invariant folderCount < 0 ==> per == 0
        invariant 0 <= folderCount ==> per <= folderCount
        invariant SleepError(durationSeconds).Some? ==> per == 0
        invariant dirs == old(dirs) + PeriodicFolders(per)
      {
        Mkdir(PeriodicFolder(per));
        assert PeriodicFolders(per + 1) == PeriodicFolders(per) + {PeriodicFolder(per)};
        var error := SleepError(durationSeconds);
        if error.Some? {
          return Raised(error.value);
        }
        per := per + 1;
      }
      if 0 <= folderCount {
        assert per == folderCount;
      } else {
        PeriodicFoldersEmpty(per);
        PeriodicFoldersEmpty(folderCount);
      }
      PeriodicFoldersEmpty(0);
      outcome := Completed;
    }
  }

  /** Calling a helper a second time with the same arguments adds nothing: every folder
      it makes already exists, `exist_ok=True` makes that no error, and folders that
      existed before either call are kept. */
  method RerunAddsNothing(tree: ProjectTree, folderList: seq<string>, prefix: string, startYear: int, endYear: int,
                          folderCount: int, toLowercase: bool, removeSpaces: bool)
    modifies tree
    ensures tree.dirs == old(tree.dirs) + RangeFolders(startYear, endYear)
      + ListFolders(folderList, toLowercase, removeSpaces) + PrefixedFolders(folderList, prefix)
      + PeriodicFolders(folderCount)
  {
    tree.CreateFoldersForRange(startYear, endYear);
    var afterFirst := tree.dirs;
    tree.CreateFoldersForRange(startYear, endYear);
    assert tree.dirs == afterFirst;

    tree.CreateFoldersFromList(folderList, toLowercase, removeSpaces);
    afterFirst := tree.dirs;
    tree.CreateFoldersFromList(folderList, toLowercase, removeSpaces);
    assert tree.dirs == afterFirst;

    tree.CreatePrefixedFolders(folderList, prefix);
    afterFirst := tree.dirs;
    tree.CreatePrefixedFolders(folderList, prefix);
    assert tree.dirs == afterFirst;

    var outcome := tree.CreateFoldersPeriodically(folderCount, 0);
    afterFirst := tree.dirs;
    outcome := tree.CreateFoldersPeriodically(folderCount, 0);
    assert tree.dirs == afterFirst;
  }
}
