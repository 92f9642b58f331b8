/** The state of one analysis run: where it writes, which earlier run it compares with,
    which folders it scans, which targets it keeps, and the trace files it found. The
    file system is an abstract value passed in. */
module Context {
  import opened Wrappers
  import opened Strings
  import opened Paths
  import opened Comparison
  import opened TimingData

  /** What the run can see of the disk: regular files, directories, the names each listed
      directory holds, and the decoded contents of the snapshot files that decode. */
  datatype FileSystem = FileSystem(
    files: set<string>,
    dirs: set<string>,
    listings: map<string, seq<string>>,
    snapshots: map<string, map<string, Entry>>)

  predicate Exists(fs: FileSystem, p: string) {
    p in fs.files || p in fs.dirs
  }

  /** Decoding a snapshot file; a file that does not decode ends the run. */
  function Load(fs: FileSystem, p: string): Result<map<string, Entry>> {
    if p in fs.snapshots then Ok(fs.snapshots[p]) else Fatal("could not decode " + p)
  }

  /** `get_known_timing_data_item_suffixes_to_skip`: JSON files written by Xcode that are
      not traces. */
  const SuffixesToSkip: set<string> := {"-outputfilemap.json", "-buildrequest.json"}

  // ---- Finding the last comparison ----

  /** A child of the search root that the search accepts. */
  predicate Qualifies(fs: FileSystem, root: string, item: string, outputPath: string,
                      fileName: string, name: Option<string>)
  {
    var dir := Join(root, item);
    var snapshot := Join(dir, fileName);
    dir != outputPath && dir in fs.dirs && Exists(fs, snapshot) && snapshot in fs.snapshots &&
    (name.Some? ==> NameIn(fs.snapshots[snapshot]) == name.value)
  }

  /** The search loop of `_find_last_comparison` over `order`: skip the current output
      folder, plain files and folders without a snapshot; decode the snapshot; take it when
      no name is asked for or its name is the one asked for. */
  function SearchFrom(fs: FileSystem, root: string, order: seq<string>, outputPath: string,
                      fileName: string, name: Option<string>): Result<Option<string>>
  {
    if order == [] then Ok(None)
    else
      var dir := Join(root, order[0]);
      var snapshot := Join(dir, fileName);
      if dir == outputPath || dir !in fs.dirs || !Exists(fs, snapshot) then
        SearchFrom(fs, root, order[1..], outputPath, fileName, name)
      else
        var d :- Load(fs, snapshot);
        if name.Some? && NameIn(d) != name.value then
          SearchFrom(fs, root, order[1..], outputPath, fileName, name)
        else Ok(Some(snapshot))
  }

  /** The search picks the snapshot of the first qualifying child, and finds nothing only
      when no child qualifies. */
  lemma {:induction false} SearchPicksFirst(fs: FileSystem, root: string, order: seq<string>,
                                            outputPath: string, fileName: string, name: Option<string>)
    ensures var r := SearchFrom(fs, root, order, outputPath, fileName, name);
      r.Ok? && r.value.Some? ==>
        exists i :: 0 <= i < |order| && Qualifies(fs, root, order[i], outputPath, fileName, name) &&
          r.value.value == Join(Join(root, order[i]), fileName) &&
          forall j :: 0 <= j < i ==> !Qualifies(fs, root, order[j], outputPath, fileName, name)
  {
    if order != [] {
      var r := SearchFrom(fs, root, order, outputPath, fileName, name);
      if r.Ok? && r.value.Some? && !Qualifies(fs, root, order[0], outputPath, fileName, name) {
        var tail := order[1..];
        SearchPicksFirst(fs, root, tail, outputPath, fileName, name);
        assert r == SearchFrom(fs, root, tail, outputPath, fileName, name);
        var i' :| 0 <= i' < |tail| && Qualifies(fs, root, tail[i'], outputPath, fileName, name) &&
          r.value.value == Join(Join(root, tail[i']), fileName) &&
          forall j :: 0 <= j < i' ==> !Qualifies(fs, root, tail[j], outputPath, fileName, name);
        assert order[i' + 1] == tail[i'];
        assert forall j :: 0 < j < i' + 1 ==> order[j] == tail[j - 1];
      }
    }
  }

  /** The search finds nothing only when no child qualifies. */
  lemma {:induction false} SearchFindsNothing(fs: FileSystem, root: string, order: seq<string>,
                                              outputPath: string, fileName: string, name: Option<string>)
    ensures SearchFrom(fs, root, order, outputPath, fileName, name) == Ok(None) ==>
      forall i :: 0 <= i < |order| ==> !Qualifies(fs, root, order[i], outputPath, fileName, name)
  {
    if order != [] && SearchFrom(fs, root, order, outputPath, fileName, name) == Ok(None) {
      var tail := order[1..];
      SearchFindsNothing(fs, root, tail, outputPath, fileName, name);
      assert forall i :: 0 < i < |order| ==> order[i] == tail[i - 1];
    }
  }

  /** `listing.sort()` then `listing.reverse()`: the children in descending order. */
  lemma DescendingOrder(listing: seq<string>)
    ensures var order := Reverse(Sort(listing));
      multiset(order) == multiset(listing) &&
      forall i, j :: 0 <= i < j < |order| ==> order[i] == order[j] || Less(order[j], order[i])
  {
    var sorted := Sort(listing);
    SortIsSorted(listing);
    var order := Reverse(sorted);
    ReverseMultiset(sorted);
  }

  lemma {:induction false} ReverseMultiset(s: seq<string>)
    ensures multiset(Reverse(s)) == multiset(s)
  {
    if s != [] {
      ReverseMultiset(s[1..]);
      assert s == [s[0]] + s[1..];
    }
  }

  /** Which snapshot `_find_last_comparison` loads, if any; `outputPath` is the folder this
      run writes to. */
  function LastComparisonOutcome(fs: FileSystem, run: bool, explicit: Option<string>, outputPath: string,
                                 fileName: string, name: Option<string>): Result<Option<string>>
  {
    if !run then Ok(None)
    else if explicit.Some? && explicit.value in fs.files then
      var _ :- Load(fs, explicit.value);
      Ok(Some(explicit.value))
    else
      var inDir := explicit.Some? && explicit.value in fs.dirs;
      if inDir && Exists(fs, Join(explicit.value, fileName)) then
        var _ :- Load(fs, Join(explicit.value, fileName));
        Ok(Some(Join(explicit.value, fileName)))
      else
        var root := if inDir then explicit.value else Split(outputPath).0;
        if root !in fs.listings then Fatal("could not list " + root)
        else SearchFrom(fs, root, Reverse(Sort(fs.listings[root])), outputPath, fileName, name)
  }

  /** Without an explicit snapshot or folder, the search root is the folder holding the
      output folder. */
  lemma DefaultSearchRoot(fs: FileSystem, outputPath: string, fileName: string, name: Option<string>)
    requires Split(outputPath).0 in fs.listings
    ensures LastComparisonOutcome(fs, true, None, outputPath, fileName, name) ==
      SearchFrom(fs, Split(outputPath).0, Reverse(Sort(fs.listings[Split(outputPath).0])),
                 outputPath, fileName, name)
  {
  }

  // ---- Folder de-duplication ----

  function Lowers(s: seq<string>): set<string> {
    set x | x in s :: Lower(x)
  }

  /** The de-duplication loop: a folder is kept when no earlier folder has the same
      lower-case spelling. */
  function Dedup(s: seq<string>): seq<string> {
    if s == [] then []
    else
      var init := s[..|s| - 1];
      if Lower(s[|s| - 1]) in Lowers(init) then Dedup(init) else Dedup(init) + [s[|s| - 1]]
  }

  predicate FirstOfKind(s: seq<string>, i: int)
    requires 0 <= i < |s|
  {
    forall j :: 0 <= j < i ==> Lower(s[j]) != Lower(s[i])
  }

  lemma LowersAppend(s: seq<string>, x: string)
    ensures Lowers(s + [x]) == Lowers(s) + {Lower(x)}
  {
    assert forall y :: y in s + [x] <==> y in s || y == x;
  }

  /** The kept folders are exactly the first of each case-insensitive spelling, no two share
      a lower-case spelling, and every spelling of the input is represented. */
  lemma {:induction false} DedupKeepsFirst(s: seq<string>)
    ensures forall x :: x in Dedup(s) <==> exists i :: 0 <= i < |s| && s[i] == x && FirstOfKind(s, i)
    ensures forall i, j :: 0 <= i < j < |Dedup(s)| ==> Lower(Dedup(s)[i]) != Lower(Dedup(s)[j])
    ensures Lowers(Dedup(s)) == Lowers(s)
  {
    if s != [] {
      var init := s[..|s| - 1];
      var last := s[|s| - 1];
      assert s == init + [last];
      DedupKeepsFirst(init);
      LowersAppend(init, last);
      var d := Dedup(init);
      assert forall i :: 0 <= i < |init| ==> init[i] == s[i];
      assert forall i :: 0 <= i < |init| ==> (FirstOfKind(init, i) <==> FirstOfKind(s, i));
      if Lower(last) in Lowers(init) {
        assert !FirstOfKind(s, |s| - 1);
      } else {
        LowersAppend(d, last);
        assert FirstOfKind(s, |s| - 1);
        forall i | 0 <= i < |d| ensures Lower(d[i]) != Lower(last) {
          assert Lower(d[i]) in Lowers(d);
        }
      }
    }
  }

  // ---- Grouping by target ----

  /** The traces of target `t`, in input order. */
  function ByTarget(s: seq<TimingData>, t: string): (r: seq<TimingData>)
    ensures forall x :: x in r ==> x in s && x.target == t
    ensures forall i :: 0 <= i < |s| && s[i].target == t ==> s[i] in r
  {
    if s == [] then []
    else
      var init := ByTarget(s[..|s| - 1], t);
      assert forall i :: 0 <= i < |s| - 1 ==> s[..|s| - 1][i] == s[i];
      if s[|s| - 1].target == t then init + [s[|s| - 1]] else init
  }

  /** The grouping loop of `timing_data_items_by_targets`. */
  function Group(s: seq<TimingData>): map<string, seq<TimingData>> {
    if s == [] then map[]
    else
      var g := Group(s[..|s| - 1]);
      var last := s[|s| - 1];
      g[last.target := (if last.target in g then g[last.target] else []) + [last]]
  }

  function Targets(s: seq<TimingData>): set<string> {
    set i | 0 <= i < |s| :: s[i].target
  }

  /** The grouping has one entry per target that occurs, holding that target's traces in
      input order. */
  lemma {:induction false} GroupIsByTarget(s: seq<TimingData>)
    ensures Group(s) == map t | t in Targets(s) :: ByTarget(s, t)
  {
    if s != [] {
      var init := s[..|s| - 1];
      var last := s[|s| - 1];
      GroupIsByTarget(init);
      TargetsSnoc(s);
      if last.target !in Targets(init) {
        NoTargetEmpty(init, last.target);
      }
      var g := Group(init);
      var m := map t | t in Targets(s) :: ByTarget(s, t);
      assert Group(s) == g[last.target := (if last.target in g then g[last.target] else []) + [last]];
      assert g.Keys == Targets(init);
      assert Group(s).Keys == m.Keys;
      forall t | t in m ensures Group(s)[t] == m[t] {
        ByTargetSnoc(s, t);
      }
      assert Group(s) == m;
    }
  }

  lemma TargetsSnoc(s: seq<TimingData>)
    requires s != []
    ensures Targets(s) == Targets(s[..|s| - 1]) + {s[|s| - 1].target}
  {
    var init := s[..|s| - 1];
    forall t | t in Targets(s) ensures t in Targets(init) + {s[|s| - 1].target} {
      var i :| 0 <= i < |s| && s[i].target == t;
      if i < |init| {
        assert init[i].target == t;
      }
    }
    forall t | t in Targets(init) ensures t in Targets(s) {
      var i :| 0 <= i < |init| && init[i].target == t;
      assert s[i].target == t;
    }
    assert s[|s| - 1].target in Targets(s);
  }

  lemma ByTargetSnoc(s: seq<TimingData>, t: string)
    requires s != []
    ensures ByTarget(s, t) == ByTarget(s[..|s| - 1], t) + (if s[|s| - 1].target == t then [s[|s| - 1]] else [])
  {
    assert ByTarget(s[..|s| - 1], t) + [] == ByTarget(s[..|s| - 1], t);
  }

  lemma {:induction false} NoTargetEmpty(s: seq<TimingData>, t: string)
    requires t !in Targets(s)
    ensures ByTarget(s, t) == []
  {
    if s != [] {
      var init := s[..|s| - 1];
      assert s[|s| - 1].target != t;
      assert Targets(init) <= Targets(s) by {
        forall u | u in Targets(init) ensures u in Targets(s) {
          var i :| 0 <= i < |init| && init[i].target == u;
          assert s[i] == init[i];
        }
      }
      NoTargetEmpty(init, t);
    }
  }

  /** The order in which the grouping's dictionary holds its targets: first appearance. */
  function GroupOrder(s: seq<TimingData>): (r: seq<string>)
    ensures Distinct(r)
    ensures forall t :: t in r <==> t in Targets(s)
  {
    if s == [] then []
    else
      var init := GroupOrder(s[..|s| - 1]);
      var t := s[|s| - 1].target;
      assert forall u :: u in Targets(s) <==> u in Targets(s[..|s| - 1]) || u == t by {
        forall u | u in Targets(s) ensures u in Targets(s[..|s| - 1]) || u == t {
          var i :| 0 <= i < |s| && s[i].target == u;
          if i < |s| - 1 {
            assert s[..|s| - 1][i] == s[i];
          }
        }
        forall u | u in Targets(s[..|s| - 1]) ensures u in Targets(s) {
          var i :| 0 <= i < |s| - 1 && s[..|s| - 1][i].target == u;
          assert s[i] == s[..|s| - 1][i];
        }
      }
      if t in init then init else init + [t]
  }

  /** The order lists exactly the grouping's targets. */
  lemma GroupOrderKeys(s: seq<TimingData>)
    ensures forall t :: t in GroupOrder(s) <==> t in Group(s)
  {
    GroupIsByTarget(s);
  }

  /** Every trace of the grouping is one of the traces, and every trace is in its target's
      entry. */
  lemma GroupMembers(s: seq<TimingData>)
    ensures forall t, x :: t in Group(s) && x in Group(s)[t] ==> x in s && x.target == t
    ensures forall i :: 0 <= i < |s| ==> s[i].target in Group(s) && s[i] in Group(s)[s[i].target]
  {
    GroupIsByTarget(s);
  }

  class Context {
    var outputPath: Option<string>
    const runComparison: bool
    const lastComparisonFilePath: Option<string>
    const comparisonFileName: string
    const comparisonName: Option<string>
    const targets: set<string>
    var lastComparison: Option<Comparison>
    var folders: seq<string>
    var foldersDeduped: bool
    var timingDataItems: seq<TimingData>
    /** `_targets_to_timing_data_items`: the cached grouping, `None` when invalidated. */
    var byTargets: Option<map<string, seq<TimingData>>>

    ghost predicate Valid()
      reads this
    {
      byTargets.Some? ==> byTargets.value == Group(timingDataItems)
    }

    constructor (outputPath: Option<string>, folders: seq<string>, runComparison: bool,
                 lastComparisonFilePath: Option<string>, comparisonFileName: string,
                 comparisonName: Option<string>, targets: set<string>)
      ensures Valid()
      ensures this.outputPath == outputPath && this.folders == folders
      ensures this.runComparison == runComparison && this.lastComparisonFilePath == lastComparisonFilePath
      ensures this.comparisonFileName == comparisonFileName && this.comparisonName == comparisonName
      ensures this.targets == targets
      ensures lastComparison == None && !foldersDeduped && timingDataItems == [] && byTargets == None
    {
      this.outputPath := outputPath;
      this.folders := folders;
      this.runComparison := runComparison;
      this.lastComparisonFilePath := lastComparisonFilePath;
      this.comparisonFileName := comparisonFileName;
      this.comparisonName := comparisonName;
      this.targets := targets;
      lastComparison := None;
      foldersDeduped := false;
      timingDataItems := [];
      byTargets := None;
    }

    /** `has_output_path`: an empty path is turned into no path. */
    method HasOutputPath() returns (r: bool)
      modifies this
      ensures outputPath == (if old(outputPath) == Some("") then None else old(outputPath))
      ensures r <==> outputPath.Some?
      ensures r <==> old(outputPath).Some? && old(outputPath).value != ""
      ensures unchanged(this`folders, this`foldersDeduped, this`timingDataItems, this`byTargets, this`lastComparison)
    {
      if outputPath == Some("") {
        outputPath := None;
      }
      return outputPath.Some?;
    }

    /** `_find_last_comparison`, once the output folder exists. */
    method FindLastComparison(fs: FileSystem) returns (r: Result<()>)
      requires outputPath.Some?
      modifies this
      ensures var o := LastComparisonOutcome(fs, runComparison, lastComparisonFilePath, old(outputPath).value,
                                             comparisonFileName, comparisonName);
        (r.Fatal? <==> o.Fatal?) &&
        (o.Ok? && o.value.None? ==> lastComparison == old(lastComparison)) &&
        (o.Ok? && o.value.Some? ==>
          lastComparison.Some? && o.value.value in fs.snapshots &&
          lastComparison.value.dict == fs.snapshots[o.value.value])
      ensures unchanged(this`outputPath, this`folders, this`foldersDeduped, this`timingDataItems, this`byTargets)
    {
      if !runComparison {
        return Ok(());
      }
      var explicit := lastComparisonFilePath;
      if explicit.Some? && explicit.value in fs.files {
        var d := Load(fs, explicit.value);
        if d.Fatal? {
          return Fatal(d.message);
        }
        var c := new Comparison.Loaded(d.value);
        lastComparison := Some(c);
        return Ok(());
      }
      var root := Split(outputPath.value).0;
      if explicit.Some? && explicit.value in fs.dirs {
        var snapshot := Join(explicit.value, comparisonFileName);
        if Exists(fs, snapshot) {
          var d := Load(fs, snapshot);
          if d.Fatal? {
            return Fatal(d.message);
          }
          var c := new Comparison.Loaded(d.value);
          lastComparison := Some(c);
          return Ok(());
        }
        root := explicit.value;
      }
      if root !in fs.listings {
        return Fatal("could not list " + root);
      }
      var listing := fs.listings[root];
      listing := Sort(listing);
      listing := Reverse(listing);
      ghost var result := SearchFrom(fs, root, listing, outputPath.value, comparisonFileName, comparisonName);
      var i := 0;
      while i < |listing|
        invariant 0 <= i <= |listing|
        invariant SearchFrom(fs, root, listing[i..], outputPath.value, comparisonFileName, comparisonName) == result
        invariant lastComparison == old(lastComparison)
        invariant unchanged(this`outputPath, this`folders, this`foldersDeduped, this`timingDataItems, this`byTargets)
      {
        assert listing[i..][1..] == listing[i + 1..];
        var dir := Join(root, listing[i]);
        var snapshot := Join(dir, comparisonFileName);
        if dir != outputPath.value && dir in fs.dirs && Exists(fs, snapshot) {
          var d := Load(fs, snapshot);
          if d.Fatal? {
            return Fatal(d.message);
          }
          var matchesName := true;
          if comparisonName.Some? {
            matchesName := NameIn(d.value) == comparisonName.value;
          }
          if matchesName {
            var c := new Comparison.Loaded(d.value);
            lastComparison := Some(c);
            return Ok(());
          }
        }
        i := i + 1;
      }
      return Ok(());
    }

    /** `folders`: the de-duplicated folders. */
    method Folders() returns (r: seq<string>)
      modifies this
      ensures foldersDeduped && r == folders
      ensures old(foldersDeduped) ==> folders == old(folders)
      ensures !old(foldersDeduped) ==> folders == Sort(Dedup(old(folders)))
      ensures unchanged(this`outputPath, this`timingDataItems, this`byTargets, this`lastComparison)
    {
      DedupeFolders();
      return folders;
    }

    /** `add_folder`: appends, and marks the list as not de-duplicated. */
    method AddFolder(folder: string)
      modifies this
      ensures folders == old(folders) + [folder] && !foldersDeduped
      ensures unchanged(this`outputPath, this`timingDataItems, this`byTargets, this`lastComparison)
    {
      foldersDeduped := false;
      folders := folders + [folder];
    }

    /** `_dedupe_folders`: keeps the first of each case-insensitive spelling and sorts; a
        second call does nothing until a folder is added. */
    method DedupeFolders()
      modifies this
      ensures foldersDeduped
      ensures old(foldersDeduped) ==> folders == old(folders)
      ensures !old(foldersDeduped) ==> folders == Sort(Dedup(old(folders)))
      ensures unchanged(this`outputPath, this`timingDataItems, this`byTargets, this`lastComparison)
    {
      if foldersDeduped {
        return;
      }
      foldersDeduped := true;
      var seen: set<string> := {};
      var kept: seq<string> := [];
      var i := 0;
      while i < |folders|
        invariant 0 <= i <= |folders|
        invariant kept == Dedup(folders[..i]) && seen == Lowers(folders[..i])
        invariant foldersDeduped && folders == old(folders)
        invariant unchanged(this`outputPath, this`timingDataItems, this`byTargets, this`lastComparison)
      {
        assert folders[..i + 1][..i] == folders[..i];
        LowersAppend(folders[..i], folders[i]);
        assert folders[..i + 1] == folders[..i] + [folders[i]];
        var lower := Lower(folders[i]);
        if lower !in seen {
          kept := kept + [folders[i]];
          seen := seen + {lower};
        }
        i := i + 1;
      }
      assert folders[..|folders|] == folders;
      folders := Sort(kept);
    }

    /** `set_timing_data_items`: stores the list and invalidates the grouping. */
    method SetTimingDataItems(items: seq<TimingData>)
      modifies this
      ensures timingDataItems == items && byTargets == None && Valid()
      ensures unchanged(this`outputPath, this`folders, this`foldersDeduped, this`lastComparison)
    {
      timingDataItems := items;
      byTargets := None;
    }

    /** `timing_data_items_by_targets`: computed once and cached until the list changes. */
    method TimingDataItemsByTargets() returns (r: map<string, seq<TimingData>>)
      requires Valid()
      modifies this
      ensures Valid() && r == Group(timingDataItems) && byTargets == Some(r)
      ensures unchanged(this`outputPath, this`folders, this`foldersDeduped, this`timingDataItems, this`lastComparison)
    {
      if byTargets.None? {
        var g: map<string, seq<TimingData>> := map[];
        var i := 0;
        while i < |timingDataItems|
          invariant 0 <= i <= |timingDataItems|
          invariant g == Group(timingDataItems[..i])
          invariant unchanged(this)
        {
          assert timingDataItems[..i + 1][..i] == timingDataItems[..i];
          var item := timingDataItems[i];
          if item.target !in g {
            g := g[item.target := []];
          }
          g := g[item.target := g[item.target] + [item]];
          i := i + 1;
        }
        assert timingDataItems[..|timingDataItems|] == timingDataItems;
        byTargets := Some(g);
      }
      return byTargets.value;
    }
  }
}
