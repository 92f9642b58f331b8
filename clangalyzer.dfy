/** The driver's input filters: which files found under the scanned folders become traces,
    and which tools run. */
module Clangalyzer {
  import opened Wrappers
  import opened Json
  import opened Strings
  import opened Paths
  import opened TimingDataItem
  import opened TimingData
  import opened Context

  /** A known non-trace file: its lower-cased base name ends with a skip suffix. */
  predicate IsSkipped(itemPath: string, suffixes: set<string>) {
    exists s :: s in suffixes && EndsWith(Lower(Basename(itemPath)), s)
  }

  /** `_is_item_non_timing_data_item`: true when the file is not a known non-trace file. */
  method IsNonTimingDataItem(itemPath: string, suffixes: set<string>) returns (r: bool)
    ensures r <==> !IsSkipped(itemPath, suffixes)
  {
    var item := Lower(Basename(itemPath));
    var rest := suffixes;
    while rest != {}
      invariant rest <= suffixes
      invariant forall s :: s in suffixes - rest ==> !EndsWith(item, s)
      decreases rest
    {
      var s :| s in rest;
      if EndsWith(item, s) {
        return false;
      }
      rest := rest - {s};
    }
    return true;
  }

  function Normalised(t: string): string {
    Strip(Lower(t))
  }

  /** A trace target passes the filter when, lower-cased and stripped, it is one of the
      lower-cased and stripped filters, or it is one of them followed by `_` and more (a
      platform variant such as `app_ios`). */
  predicate TargetMatches(target: string, filters: set<string>) {
    var t := Normalised(target);
    var normalised := set f | f in filters :: Normalised(f);
    t in normalised || exists f :: f in normalised && StartsWith(t, f + "_")
  }

  /** `_does_item_match_target`. */
  method DoesItemMatchTarget(itemPath: string, targets: set<string>) returns (matches: bool)
    ensures targets == {} ==> matches
    ensures targets != {} && Classify(itemPath).None? ==> !matches
    ensures targets != {} && Classify(itemPath).Some? ==>
      (matches <==> TargetMatches(Classify(itemPath).value.0, targets))
  {
    if targets == {} {
      return true;
    }
    var tpa := Classify(itemPath);
    if tpa.None? {
      return false;
    }
    var target := Normalised(tpa.value.0);
    var targetSet := NormaliseAll(targets);
    matches := target in targetSet;
    if !matches {
      matches := HasPlatformVariant(target, targetSet);
    }
    assert TargetMatches(tpa.value.0, targets) <==>
      target in targetSet || exists f :: f in targetSet && StartsWith(target, f + "_");
  }

  /** The loop building the normalised filter set. */
  method NormaliseAll(targets: set<string>) returns (targetSet: set<string>)
    ensures targetSet == set f | f in targets :: Normalised(f)
  {
    targetSet := {};
    var rest := targets;
    while rest != {}
      invariant rest <= targets
      invariant targetSet == set f | f in targets - rest :: Normalised(f)
      decreases rest
    {
      var f :| f in rest;
      assert targets - (rest - {f}) == (targets - rest) + {f};
      targetSet := targetSet + {Normalised(f)};
      rest := rest - {f};
    }
    assert targets - rest == targets;
  }

  /** The loop looking for a filter that the target extends with `_`. */
  method HasPlatformVariant(target: string, targetSet: set<string>) returns (matches: bool)
    ensures matches <==> exists f :: f in targetSet && StartsWith(target, f + "_")
  {
    matches := false;
    var candidates := targetSet;
    while candidates != {} && !matches
      invariant candidates <= targetSet
      invariant matches ==> exists f :: f in targetSet && StartsWith(target, f + "_")
      invariant !matches ==> forall f :: f in targetSet - candidates ==> !StartsWith(target, f + "_")
      decreases candidates
    {
      var f :| f in candidates;
      if StartsWith(target, f + "_") {
        matches := true;
      }
      candidates := candidates - {f};
    }
  }

  /** The filters `_process_item` applies before parsing: a regular file, a `.json`
      extension in any case, not a known non-trace file, of a wanted target, and a path the
      classifier understands. Whether the path mentions `.build` is only logged. */
  predicate Accepted(itemPath: string, files: set<string>, targets: set<string>) {
    itemPath in files &&
    Lower(SplitExt(itemPath).1) == ".json" &&
    !IsSkipped(itemPath, SuffixesToSkip) &&
    (targets != {} ==> Classify(itemPath).Some? && TargetMatches(Classify(itemPath).value.0, targets)) &&
    Classify(itemPath).Some?
  }

  /** `_process_item`: `files` are the regular files on disk and `data` the decoded
      contents of `itemPath` (`None` when it cannot be read or decoded). */
  method ProcessItem(itemPath: string, files: set<string>, targets: set<string>,
                     data: Option<Json>) returns (r: Result<Option<TimingData>>)
    ensures !Accepted(itemPath, files, targets) ==> r == Ok(None)
    ensures Accepted(itemPath, files, targets) ==>
      var c := Classify(itemPath).value;
      var o := ParseOutcome(Basename(itemPath), c.0, c.2, c.1, data);
      (r.Fatal? <==> o.Fatal?) &&
      (r == Ok(None) <==> o == Ok(None)) &&
      (r.Ok? && r.value.Some? ==>
        fresh(r.value.value) &&
        r.value.value.path == itemPath && r.value.value.target == c.0 &&
        r.value.value.platform == c.1 && r.value.value.arch == c.2 &&
        o.Ok? && o.value.Some? && r.value.value.items == o.value.value &&
        r.value.value.timeOffset == 0)
  {
    if itemPath !in files {
      return Ok(None);
    }
    var ext := Lower(SplitExt(itemPath).1);
    if ext != ".json" {
      return Ok(None);
    }
    var keep := IsNonTimingDataItem(itemPath, SuffixesToSkip);
    if !keep {
      return Ok(None);
    }
    var wanted := DoesItemMatchTarget(itemPath, targets);
    if !wanted {
      return Ok(None);
    }
    var tpa := Classify(itemPath);
    if tpa.None? {
      return Ok(None);
    }
    var (target, platform, arch) := tpa.value;
    var td := new TimingData(itemPath, target, platform, arch);
    var parsed := td.Parse(data);
    if parsed.Fatal? {
      return Fatal(parsed.message);
    }
    if !parsed.value {
      return Ok(None);
    }
    return Ok(Some(td));
  }

  /** A tool and whether it is switched on. */
  datatype Tool = Tool(name: string, enabled: bool)

  /** The enabled tools, in list order. */
  function Enabled(tools: seq<Tool>): seq<Tool> {
    if tools == [] then []
    else (if tools[0].enabled then [tools[0]] else []) + Enabled(tools[1..])
  }

  /** Exactly the enabled tools run, each as often as it is listed, and a tool listed
      before another runs before it. */
  lemma {:induction false} EnabledTools(tools: seq<Tool>)
    ensures forall t :: t in Enabled(tools) <==> t in tools && t.enabled
    ensures forall t :: multiset(Enabled(tools))[t] == (if t.enabled then multiset(tools)[t] else 0)
    ensures tools != [] && tools[0].enabled ==> Enabled(tools)[0] == tools[0]
  {
    if tools != [] {
      EnabledTools(tools[1..]);
      assert tools == [tools[0]] + tools[1..];
    }
  }

  /** `_run_tools`: returns the tools it ran, in order. */
  method RunTools(tools: seq<Tool>) returns (ran: seq<Tool>)
    ensures ran == Enabled(tools)
  {
    ran := [];
    for i := 0 to |tools|
      invariant ran + Enabled(tools[i..]) == Enabled(tools)
    {
      assert tools[i..][1..] == tools[i + 1..];
      if !tools[i].enabled {
        continue;
      }
      ran := ran + [tools[i]];
    }
    assert tools[|tools|..] == [];
  }
}
