/** The expensive-codegen tool: the functions whose code generation took longest, overall
    and per target, and the total time spent generating code. */
module ToolFindMostExpensiveCodegen {
  import opened Wrappers
  import opened Strings
  import opened TimingDataItem
  import opened TimingData
  import opened Comparison
  import opened Aggregation

  const ComparisonKey := "CodeGen Times"
  const TotalKey := "*** Total ***"
  /** How many functions the console listing shows. */
  const ShownCount := 20

  /** A `CodeGen Function` event that is listed: at least a millisecond long and naming
      its function. */
  predicate Listed(e: TimingDataItem) {
    IsCodegenFunction(e) && TruncDiv(e.duration, 1000) != 0 && Detail(e) != ""
  }

  /** The listed events, in trace order. */
  function Kept(events: seq<TimingDataItem>): seq<TimingDataItem> {
    Filter(events, Listed)
  }

  /** Every codegen event counts towards the total, listed or not. */
  function TotalDuration(events: seq<TimingDataItem>): int {
    Sum(Filter(events, IsCodegenFunction), Duration)
  }

  /** The summary stored in the comparison: the total in milliseconds, not truncated. */
  function Summary(events: seq<TimingDataItem>): map<string, real> {
    map[TotalKey := InMilliseconds(TotalDuration(events))]
  }

  /** A duration in trace time units (microseconds), in milliseconds, not truncated. */
  function InMilliseconds(d: int): real {
    d as real / 1000.0
  }

  /** The per-target lists: each target's listed events, longest first. */
  function ByTarget(events: seq<TimingDataItem>): map<string, seq<TimingDataItem>> {
    SortEach(GroupBy(Kept(events), ItemTarget))
  }

  /** Every list of the map, longest first. */
  function SortEach(g: map<string, seq<TimingDataItem>>): map<string, seq<TimingDataItem>> {
    map t | t in g :: SortDesc(g[t], Duration)
  }

  /** There is a per-target list for a target exactly when one of its events is listed. */
  lemma ByTargetKeys(events: seq<TimingDataItem>)
    ensures forall t :: t in ByTarget(events) <==> exists e :: e in events && Listed(e) && e.target == t
  {
    var kept := Kept(events);
    GroupByHaving(kept, ItemTarget);
    assert ByTarget(events).Keys == KeysOf(kept, ItemTarget);
    FilterHas(events, Listed);
    forall t | t in ByTarget(events) ensures exists e :: e in events && Listed(e) && e.target == t {
      var i :| 0 <= i < |kept| && ItemTarget(kept[i]) == t;
      assert kept[i] in kept;
    }
    forall t | exists e :: e in events && Listed(e) && e.target == t ensures t in ByTarget(events) {
      var e :| e in events && Listed(e) && e.target == t;
      assert e in kept;
      var i :| 0 <= i < |kept| && kept[i] == e;
      assert ItemTarget(kept[i]) in KeysOf(kept, ItemTarget);
    }
  }

  /** Each per-target list holds that target's listed events, each as often as it occurs,
      longest first. */
  lemma ByTargetLists(events: seq<TimingDataItem>)
    ensures forall t :: t in ByTarget(events) ==>
      multiset(ByTarget(events)[t]) == multiset(Having(Kept(events), ItemTarget, t)) &&
      SortedDesc(ByTarget(events)[t], Duration)
    ensures forall t, e :: t in ByTarget(events) && e in ByTarget(events)[t] ==> e in events && Listed(e) && e.target == t
  {
    var kept := Kept(events);
    var g := GroupBy(kept, ItemTarget);
    GroupByHaving(kept, ItemTarget);
    FilterHas(events, Listed);
    forall t, e | t in ByTarget(events) && e in ByTarget(events)[t]
      ensures e in events && Listed(e) && e.target == t
    {
      HavingMembers(kept, ItemTarget, t);
      assert ByTarget(events)[t] == SortDesc(g[t], Duration);
      assert e in multiset(ByTarget(events)[t]);
      assert e in Having(kept, ItemTarget, t);
    }
  }

  /** The console listing: the first twenty of the listed events, longest first. No event
      left out of it took longer than one shown. */
  function Shown(events: seq<TimingDataItem>): seq<TimingDataItem> {
    Take(SortDesc(Kept(events), Duration), ShownCount)
  }

  lemma ShownAreLongest(events: seq<TimingDataItem>)
    ensures |Shown(events)| == if |Kept(events)| < ShownCount then |Kept(events)| else ShownCount
    ensures SortedDesc(Shown(events), Duration)
    ensures forall e :: e in Shown(events) ==> e in events && Listed(e)
    ensures forall i, e :: 0 <= i < |Shown(events)| && e in events && Listed(e) && e !in Shown(events) ==>
      Shown(events)[i].duration >= e.duration
  {
    var kept := Kept(events);
    var sorted := SortDesc(kept, Duration);
    var shown := Shown(events);
    assert shown == sorted[..|shown|];
    SortedListed(events);
    forall i, e | 0 <= i < |shown| && e in events && Listed(e) && e !in shown
      ensures shown[i].duration >= e.duration
    {
      assert e in sorted;
      var j :| 0 <= j < |sorted| && sorted[j] == e;
      assert Duration(sorted[i]) >= Duration(sorted[j]);
    }
  }

  /** The sorted list holds exactly the listed events. */
  lemma SortedListed(events: seq<TimingDataItem>)
    ensures forall e :: e in SortDesc(Kept(events), Duration) <==> e in events && Listed(e)
  {
    var kept := Kept(events);
    var sorted := SortDesc(kept, Duration);
    FilterMembers(events, Listed);
    forall e ensures e in sorted <==> e in events && Listed(e) {
      calc {
        e in sorted;
        multiset(sorted)[e] > 0;
        multiset(kept)[e] > 0;
        e in kept;
      }
      if e in events && Listed(e) {
        assert multiset(events)[e] > 0;
      }
    }
  }

  /** The inner loop of `run` over one trace's events. */
  method InspectTrace(items: seq<TimingDataItem>, kept: seq<TimingDataItem>,
                      byTarget: map<string, seq<TimingDataItem>>, total: int, ghost before: seq<TimingDataItem>)
    returns (kept': seq<TimingDataItem>, byTarget': map<string, seq<TimingDataItem>>, total': int)
    requires kept == Kept(before) && byTarget == GroupBy(kept, ItemTarget) && total == TotalDuration(before)
    ensures kept' == Kept(before + items) && byTarget' == GroupBy(kept', ItemTarget)
    ensures total' == TotalDuration(before + items)
  {
    kept', byTarget', total' := kept, byTarget, total;
    ghost var seen := before;
    assert before + items[..0] == before;
    for j := 0 to |items|
      invariant seen == before + items[..j]
      invariant kept' == Kept(seen) && byTarget' == GroupBy(kept', ItemTarget) && total' == TotalDuration(seen)
    {
      kept', byTarget', total' := InspectItem(items[j], kept', byTarget', total', seen);
      AppendPrefixSnoc(before, items, j);
      seen := seen + [items[j]];
    }
    assert items[..|items|] == items;
  }

  /** The body of the inner loop: a codegen event adds to the total, and a listed one is
      kept, under its target too. */
  method InspectItem(item: TimingDataItem, kept: seq<TimingDataItem>,
                     byTarget: map<string, seq<TimingDataItem>>, total: int, ghost seen: seq<TimingDataItem>)
    returns (kept': seq<TimingDataItem>, byTarget': map<string, seq<TimingDataItem>>, total': int)
    requires kept == Kept(seen) && byTarget == GroupBy(kept, ItemTarget) && total == TotalDuration(seen)
    ensures kept' == Kept(seen + [item]) && byTarget' == GroupBy(kept', ItemTarget)
    ensures total' == TotalDuration(seen + [item])
  {
    kept', byTarget', total' := kept, byTarget, total;
    FilterSnoc(seen, item, IsCodegenFunction);
    FilterSnoc(seen, item, Listed);
    if !IsCodegenFunction(item) {
      return;
    }
    SumSnoc(Filter(seen, IsCodegenFunction), item, Duration);
    total' := total' + item.duration;
    var durationMs := TruncDiv(item.duration, 1000);
    if durationMs == 0 {
      return;
    }
    var functionName := Detail(item);
    if |functionName| == 0 {
      return;
    }
    GroupBySnoc(kept', item, ItemTarget);
    kept' := kept' + [item];
    var target := item.target;
    if target !in byTarget' {
      byTarget' := byTarget'[target := [item]];
    } else {
      byTarget' := byTarget'[target := byTarget'[target] + [item]];
    }
  }

  /** The outer loop of `run` over the traces. */
  method Inspect(tds: seq<TimingData>) returns (kept: seq<TimingDataItem>, byTarget: map<string, seq<TimingDataItem>>, total: int)
    ensures kept == Kept(Flatten(EventsOf(tds))) && byTarget == GroupBy(kept, ItemTarget)
    ensures total == TotalDuration(Flatten(EventsOf(tds)))
  {
    ghost var es := EventsOf(tds);
    kept, byTarget, total := [], map[], 0;
    for i := 0 to |tds|
      invariant kept == Kept(Flatten(es[..i])) && byTarget == GroupBy(kept, ItemTarget)
      invariant total == TotalDuration(Flatten(es[..i]))
    {
      kept, byTarget, total := InspectTrace(tds[i].items, kept, byTarget, total, Flatten(es[..i]));
      FlattenSnoc(es, i);
    }
    assert es[..|tds|] == es;
  }

  /** One row of a target's section in `expensive_codegen_by_target.txt`: truncated
      milliseconds and the function name. */
  function Row(e: TimingDataItem): (int, string) {
    (TruncDiv(e.duration, 1000), Detail(e))
  }

  /** The rows of a section, one per event, in list order. */
  method Rows(items: seq<TimingDataItem>) returns (rows: seq<(int, string)>)
    ensures |rows| == |items| && forall k :: 0 <= k < |items| ==> rows[k] == Row(items[k])
  {
    rows := [];
    for k := 0 to |items|
      invariant |rows| == k && forall m :: 0 <= m < k ==> rows[m] == Row(items[m])
    {
      rows := rows + [Row(items[k])];
    }
  }

  /** A section of the per-target file: a target's rows, one per event of its list. */
  predicate IsSection(byTarget: map<string, seq<TimingDataItem>>, section: (string, seq<(int, string)>)) {
    section.0 in byTarget && |section.1| == |byTarget[section.0]| &&
    forall m :: 0 <= m < |section.1| ==> section.1[m] == Row(byTarget[section.0][m])
  }

  /** `_write_summary_for_targets`: one section per target in sorted order. Whether the
      file could be written is an input; when it cannot the result is false. */
  method WriteSummaryForTargets(byTarget: map<string, seq<TimingDataItem>>, writeSucceeds: bool)
    returns (ok: bool, sections: seq<(string, seq<(int, string)>)>)
    ensures ok == writeSucceeds
    ensures StrictlySorted(Firsts(sections))
    ensures forall t :: t in Firsts(sections) <==> t in byTarget
    ensures forall k :: 0 <= k < |sections| ==> IsSection(byTarget, sections[k])
  {
    var names := SortedKeys(byTarget.Keys);
    sections := [];
    for k := 0 to |names|
      invariant |sections| == k
      invariant forall i :: 0 <= i < k ==> sections[i].0 == names[i] && IsSection(byTarget, sections[i])
    {
      var rows := Rows(byTarget[names[k]]);
      sections := sections + [(names[k], rows)];
    }
    assert Firsts(sections) == names;
    ok := writeSucceeds;
  }

  /** The sorting step of `run`: the overall list and every per-target list, longest first. */
  method SortLists(kept: seq<TimingDataItem>, byTarget: map<string, seq<TimingDataItem>>)
    returns (sorted: seq<TimingDataItem>, byTarget': map<string, seq<TimingDataItem>>)
    ensures sorted == SortDesc(kept, Duration)
    ensures byTarget' == SortEach(byTarget)
  {
    sorted := SortDesc(kept, Duration);
    byTarget' := UpdateEach(byTarget, xs => SortDesc(xs, Duration));
  }

  /** Replaces every value of the map by its image, one key at a time. */
  method UpdateEach<V>(m: map<string, V>, f: V -> V) returns (m': map<string, V>)
    ensures m' == map k | k in m :: f(m[k])
  {
    m' := m;
    var rest := m.Keys;
    while rest != {}
      invariant rest <= m.Keys && m'.Keys == m.Keys
      invariant forall k :: k in m ==> m'[k] == if k in rest then m[k] else f(m[k])
      decreases rest
    {
      var k :| k in rest;
      m' := m'[k := f(m'[k])];
      rest := rest - {k};
    }
  }

  /** The collecting and sorting steps of `run`. */
  method Collect(tds: seq<TimingData>) returns (sorted: seq<TimingDataItem>, byTarget: map<string, seq<TimingDataItem>>, total: int)
    ensures sorted == SortDesc(Kept(Flatten(EventsOf(tds))), Duration)
    ensures byTarget == ByTarget(Flatten(EventsOf(tds))) && total == TotalDuration(Flatten(EventsOf(tds)))
  {
    var kept;
    kept, byTarget, total := Inspect(tds);
    sorted, byTarget := SortLists(kept, byTarget);
  }

  /** The computing part of `run`: the listing, the per-target file and the summary, for
      the traces' events. */
  method Report(tds: seq<TimingData>, writeSucceeds: bool)
    returns (ok: bool, shown: seq<TimingDataItem>, sections: seq<(string, seq<(int, string)>)>, summary: map<string, real>)
    ensures ok == writeSucceeds
    ensures shown == Shown(Flatten(EventsOf(tds))) && summary == Summary(Flatten(EventsOf(tds)))
    ensures forall t :: t in Firsts(sections) <==> t in ByTarget(Flatten(EventsOf(tds)))
    ensures forall k :: 0 <= k < |sections| ==> IsSection(ByTarget(Flatten(EventsOf(tds))), sections[k])
  {
    var sorted, byTarget, total := Collect(tds);
    shown := Take(sorted, ShownCount);
    ok, sections := WriteSummaryForTargets(byTarget, writeSucceeds);
    summary := map[TotalKey := InMilliseconds(total)];
  }

  /** `run`: the listing, the per-target file and the comparison summary. When the file
      cannot be written the tool stops with false and adds no summary. */
  method Run(tds: seq<TimingData>, comparison: Comparison, writeSucceeds: bool)
    returns (r: Result<bool>, shown: seq<TimingDataItem>, sections: seq<(string, seq<(int, string)>)>)
    modifies comparison
    ensures shown == old(Shown(Flatten(EventsOf(tds))))
    ensures !writeSucceeds ==> r == Ok(false) && comparison.dict == old(comparison.dict)
    ensures writeSucceeds ==> (r.Fatal? <==> ComparisonKey in old(comparison.dict))
    ensures r.Ok? && writeSucceeds ==>
      r.value && comparison.dict == old(comparison.dict)[ComparisonKey := Entry.Summary(old(Summary(Flatten(EventsOf(tds)))))]
    ensures r.Fatal? ==> comparison.dict == old(comparison.dict)
    ensures forall t :: t in Firsts(sections) <==> t in old(ByTarget(Flatten(EventsOf(tds))))
    ensures forall k :: 0 <= k < |sections| ==> IsSection(old(ByTarget(Flatten(EventsOf(tds)))), sections[k])
  {
    var ok, summary;
    ok, shown, sections, summary := Report(tds, writeSucceeds);
    if !ok {
      return Ok(false), shown, sections;
    }
    var added := comparison.AddSummary(ComparisonKey, summary);
    if added.Fatal? {
      return Fatal(added.message), shown, sections;
    }
    r := Ok(true);
  }
}
