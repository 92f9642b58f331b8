/** The trace-gathering tool: every trace file is copied into the `traces` folder of the
    output, under its own base name made unique by numbered suffixes. */
module ToolGatherTraceFiles {
  import opened Wrappers
  import opened Strings
  import opened Paths
  import opened TimingData
  import opened Aggregation

  /** The folder, under the output folder, that receives the copies. */
  const GatherFolderName := "traces"

  /** `os.path.exists(os.path.join(gather_path, name))`, for the names in the folder: the
      empty name joins to the folder itself, which exists. */
  predicate Taken(present: set<string>, name: string) {
    name == "" || name in present
  }

  /** The next candidate: `-<n>` goes before the current candidate's extension, so the
      suffixes of successive collisions pile up. */
  function WithSuffix(name: string, n: nat): (r: string)
    ensures |r| > |name|
  {
    var (root, ext) := SplitExt(name);
    root + "-" + NatToString(n) + ext
  }

  /** The length of the longest name; no longer name is in the set. */
  ghost function MaxLength(names: set<string>): (r: nat)
    ensures forall s :: s in names ==> |s| <= r
  {
    if names == {} then 0
    else
      var x :| x in names;
      var rest := MaxLength(names - {x});
      if |x| > rest then |x| else rest
  }

  /** The name the de-duplication loop settles on, from candidate `name` tried with suffix
      count `n`. */
  function FreeName(present: set<string>, name: string, n: nat): string
    decreases MaxLength(present) - |name|
  {
    if !Taken(present, name) then name else FreeName(present, WithSuffix(name, n + 1), n + 1)
  }

  /** The chosen name is never one that exists. */
  lemma {:induction false} FreeNameIsFree(present: set<string>, name: string, n: nat)
    ensures !Taken(present, FreeName(present, name, n))
    decreases MaxLength(present) - |name|
  {
    if Taken(present, name) {
      FreeNameIsFree(present, WithSuffix(name, n + 1), n + 1);
    }
  }

  /** A name that is free is kept as it is. */
  lemma FreeNameKeepsFree(present: set<string>, name: string, n: nat)
    requires !Taken(present, name)
    ensures FreeName(present, name, n) == name
  {
  }

  /** The suffixes compound: with `a.json` and `a-2.json` taken, the copy of `a.json` is
      named `a-2-3.json`. */
  lemma SuffixesCompound()
    ensures FreeName({"a.json", "a-2.json"}, "a.json", 1) == "a-2-3.json"
  {
    var present := {"a.json", "a-2.json"};
    var a, a2 := "a.json", "a-2.json";
    LastIndexAbsent(a, '/');
    LastIndexAt(a, '.', 1);
    assert a[0] != '.' && a[..1] == "a" && a[1..] == ".json";
    assert SplitExt(a) == ("a", ".json");
    assert NatToString(2) == "2";
    assert WithSuffix(a, 2) == a2;
    LastIndexAbsent(a2, '/');
    LastIndexAt(a2, '.', 3);
    assert a2[0] != '.' && a2[..3] == "a-2" && a2[3..] == ".json";
    assert SplitExt(a2) == ("a-2", ".json");
    assert NatToString(3) == "3";
    assert WithSuffix(a2, 3) == "a-2-3.json";
    assert "a-2-3.json" !in present;
    assert FreeName(present, "a-2-3.json", 3) == "a-2-3.json";
    assert FreeName(present, "a-2.json", 2) == "a-2-3.json";
  }

  /** The de-duplication loop of `run` for one trace. */
  method ChooseName(present: set<string>, baseName: string) returns (name: string)
    ensures name == FreeName(present, baseName, 1)
  {
    var suffixCount := 1;
    name := baseName;
    while Taken(present, name)
      invariant FreeName(present, name, suffixCount) == FreeName(present, baseName, 1)
      decreases MaxLength(present) - |name|
    {
      suffixCount := suffixCount + 1;
      name := WithSuffix(name, suffixCount);
    }
  }

  /** The name the copy of the trace at `path` gets in a folder holding `present`. */
  function Destination(present: set<string>, path: string): (r: string)
    ensures !Taken(present, r)
  {
    FreeNameIsFree(present, Basename(path), 1);
    FreeName(present, Basename(path), 1)
  }

  /** The folder after that copy: a copy that fails (its source is in `failing`) leaves it as
      it was. */
  function AfterCopy(present: set<string>, path: string, failing: set<string>): (r: set<string>)
    ensures path !in failing ==> r == present + {Destination(present, path)}
    ensures path in failing ==> r == present
  {
    if path in failing then present else present + {Destination(present, path)}
  }

  /** The names of the copies of the traces at `paths`, made in turn. */
  function Destinations(present: set<string>, paths: seq<string>, failing: set<string>): (r: seq<string>)
    ensures |r| == |paths|
    decreases |paths|
  {
    if paths == [] then []
    else [Destination(present, paths[0])] + Destinations(AfterCopy(present, paths[0], failing), paths[1..], failing)
  }

  /** The names in the folder after the copies. */
  function Gathered(present: set<string>, paths: seq<string>, failing: set<string>): set<string>
    decreases |paths|
  {
    if paths == [] then present
    else Gathered(AfterCopy(present, paths[0], failing), paths[1..], failing)
  }

  /** One copy more, seen from the `i`th trace on. */
  lemma CopyStep(present: set<string>, paths: seq<string>, i: nat, failing: set<string>)
    requires i < |paths|
    ensures Destinations(present, paths[i..], failing) ==
      [Destination(present, paths[i])] + Destinations(AfterCopy(present, paths[i], failing), paths[i + 1..], failing)
    ensures Gathered(present, paths[i..], failing) ==
      Gathered(AfterCopy(present, paths[i], failing), paths[i + 1..], failing)
  {
    assert paths[i..][0] == paths[i];
    assert paths[i..][1..] == paths[i + 1..];
  }

  /** No copy lands on a name that was in the folder. */
  lemma {:induction false} DestinationsFresh(present: set<string>, paths: seq<string>, failing: set<string>)
    ensures forall i :: 0 <= i < |paths| ==> !Taken(present, Destinations(present, paths, failing)[i])
    decreases |paths|
  {
    if paths != [] {
      var next := AfterCopy(present, paths[0], failing);
      DestinationsFresh(next, paths[1..], failing);
      var d := Destinations(present, paths, failing);
      var rest := Destinations(next, paths[1..], failing);
      assert d == [Destination(present, paths[0])] + rest;
      assert present <= next;
      forall i | 0 < i < |d| ensures !Taken(present, d[i]) {
        assert d[i] == rest[i - 1];
        assert !Taken(next, rest[i - 1]);
      }
    }
  }

  /** No copy overwrites one made before it. */
  lemma {:induction false} DestinationsDistinct(present: set<string>, paths: seq<string>, failing: set<string>)
    ensures forall i, j :: 0 <= i < j < |paths| && paths[i] !in failing ==>
      Destinations(present, paths, failing)[i] != Destinations(present, paths, failing)[j]
    decreases |paths|
  {
    if paths != [] {
      var first := Destination(present, paths[0]);
      var next := AfterCopy(present, paths[0], failing);
      var rest := Destinations(next, paths[1..], failing);
      var d := Destinations(present, paths, failing);
      assert d == [first] + rest;
      forall j | 0 < j < |paths| && paths[0] !in failing ensures d[0] != d[j] {
        DestinationsFresh(next, paths[1..], failing);
        assert first in next && d[j] == rest[j - 1] && !Taken(next, rest[j - 1]);
      }
      forall i, j | 0 < i < j < |paths| && paths[i] !in failing ensures d[i] != d[j] {
        DestinationsDistinct(next, paths[1..], failing);
        assert d[i] == rest[i - 1] && d[j] == rest[j - 1] && paths[1..][i - 1] == paths[i];
      }
    }
  }

  /** Copies only add names: the folder keeps what it had. */
  lemma {:induction false} GatheredKeeps(present: set<string>, paths: seq<string>, failing: set<string>)
    ensures present <= Gathered(present, paths, failing)
    decreases |paths|
  {
    if paths != [] {
      GatheredKeeps(AfterCopy(present, paths[0], failing), paths[1..], failing);
    }
  }

  /** Each copy that succeeds is in the folder afterwards. */
  lemma {:induction false} GatheredHolds(present: set<string>, paths: seq<string>, failing: set<string>)
    ensures forall i :: 0 <= i < |paths| && paths[i] !in failing ==>
      Destinations(present, paths, failing)[i] in Gathered(present, paths, failing)
    decreases |paths|
  {
    if paths != [] {
      var next := AfterCopy(present, paths[0], failing);
      GatheredHolds(next, paths[1..], failing);
      GatheredKeeps(next, paths[1..], failing);
      var d := Destinations(present, paths, failing);
      forall i | 0 < i < |paths| && paths[i] !in failing ensures d[i] in Gathered(present, paths, failing) {
        assert d[i] == Destinations(next, paths[1..], failing)[i - 1] && paths[i] == paths[1..][i - 1];
      }
    }
  }

  function PathsOf(tds: seq<TimingData>): (r: seq<string>)
    ensures |r| == |tds| && forall i :: 0 <= i < |tds| ==> r[i] == tds[i].path
  {
    if tds == [] then [] else [tds[0].path] + PathsOf(tds[1..])
  }

  /** `run`: the traces folder is created when missing (`folder` is then `None`); each
      trace is copied under the name the loop chooses, whether or not the copy succeeds, and
      the count is the number of traces. */
  method Run(tds: seq<TimingData>, folder: Option<set<string>>, failing: set<string>)
    returns (count: nat, dests: seq<string>, present': set<string>)
    ensures var present := if folder.Some? then folder.value else {};
      count == |tds| &&
      dests == Destinations(present, PathsOf(tds), failing) &&
      present' == Gathered(present, PathsOf(tds), failing)
  {
    var present := if folder.Some? then folder.value else {};
    ghost var paths := PathsOf(tds);
    count := 0;
    dests := [];
    present' := present;
    for i := 0 to |tds|
      invariant count == i
      invariant Destinations(present, paths, failing) == dests + Destinations(present', paths[i..], failing)
      invariant Gathered(present, paths, failing) == Gathered(present', paths[i..], failing)
    {
      var itemPath := tds[i].path;
      var destName := Basename(itemPath);
      count := count + 1;
      destName := ChooseName(present', destName);
      ghost var before := present';
      assert itemPath == paths[i];
      assert destName == Destination(before, itemPath);
      if itemPath !in failing {
        present' := present' + {destName};
      }
      assert present' == AfterCopy(before, itemPath, failing);
      ghost var rest := Destinations(present', paths[i + 1..], failing);
      assert Destinations(before, paths[i..], failing) == [destName] + rest &&
        Gathered(before, paths[i..], failing) == Gathered(present', paths[i + 1..], failing) by {
        CopyStep(before, paths, i, failing);
      }
      SnocBeforeTail(dests, destName, rest);
      dests := dests + [destName];
    }
    assert paths[|tds|..] == [];
    assert dests + [] == dests;
  }
}
