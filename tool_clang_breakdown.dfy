/** The clang-breakdown tool: time per compiler phase, from the `Total <phase>` events of
    every trace. */
module ToolClangBreakdown {
  import opened Wrappers
  import opened Strings
  import opened TimingDataItem
  import opened TimingData
  import opened Comparison
  import opened Aggregation

  const ComparisonKey := "Clang Breakdown"
  const TotalKey := "*** Total ***"

  /** An event with a phase name: `Total <phase>` with a non-empty phase. */
  predicate Named(e: TimingDataItem) {
    ShortTotalName(e) != ""
  }

  /** `items_by_name`. */
  function ItemsByName(events: seq<TimingDataItem>): map<string, seq<TimingDataItem>> {
    GroupBy(Filter(events, Named), ShortTotalName)
  }

  /** The total duration of each phase. */
  function NameTotals(events: seq<TimingDataItem>): map<string, int> {
    Totals(ItemsByName(events))
  }

  /** The total duration of each list. */
  function Totals(byName: map<string, seq<TimingDataItem>>): map<string, int> {
    map n | n in byName :: Sum(byName[n], Duration)
  }

  /** The phase's seconds, truncated to two places, print as `0.0`: the total is under
      10 ms either way (seconds are a millionth of the total, times a hundred, truncated). */
  predicate Skipped(total: int) {
    TruncDiv(total, 10000) == 0
  }

  lemma SkippedBand(total: int)
    ensures Skipped(total) <==> -10000 < total < 10000
  {
  }

  /** The summary: truncated milliseconds for every phase that is not skipped, and the
      truncated grand total of all phases. */
  function Summary(events: seq<TimingDataItem>): map<string, real> {
    KeptPhases(NameTotals(events))[TotalKey := WholeMilliseconds(Sum(Filter(events, Named), Duration))]
  }

  /** The phases that are shown, each with its truncated milliseconds. */
  function KeptPhases(totals: map<string, int>): map<string, real> {
    map n | n in totals && !Skipped(totals[n]) :: WholeMilliseconds(totals[n])
  }

  /** The phase totals are the running totals by phase name. */
  lemma NameTotalsAreSums(events: seq<TimingDataItem>)
    ensures NameTotals(events) == SumByKey(Filter(events, Named), ShortTotalName, Duration)
  {
    var named := Filter(events, Named);
    var m := SumByKey(named, ShortTotalName, Duration);
    assert NameTotals(events).Keys == m.Keys by {
      GroupByHaving(named, ShortTotalName);
      SumByKeyKeys(named, ShortTotalName, Duration);
    }
    forall n | n in m ensures NameTotals(events)[n] == m[n] {
      GroupByHaving(named, ShortTotalName);
      SumByKeyAt(named, ShortTotalName, Duration, n);
    }
  }

  /** There is a phase total for exactly the names of the named events. */
  lemma NameTotalsKeys(events: seq<TimingDataItem>)
    ensures NameTotals(events).Keys == set e | e in events && Named(e) :: ShortTotalName(e)
  {
    var named := Filter(events, Named);
    assert NameTotals(events).Keys == KeysOf(named, ShortTotalName) by {
      GroupByHaving(named, ShortTotalName);
    }
    forall n | n in set e | e in events && Named(e) :: ShortTotalName(e)
      ensures n in KeysOf(named, ShortTotalName)
    {
      var e :| e in events && Named(e) && ShortTotalName(e) == n;
      FilterHas(events, Named);
      var i :| 0 <= i < |named| && named[i] == e;
    }
    forall n | n in KeysOf(named, ShortTotalName)
      ensures n in set e | e in events && Named(e) :: ShortTotalName(e)
    {
      var i :| 0 <= i < |named| && ShortTotalName(named[i]) == n;
      FilterHas(events, Named);
      assert named[i] in named;
    }
  }

  /** The grand total counts every phase, skipped ones included. */
  lemma GrandTotalIsSumOfPhases(events: seq<TimingDataItem>, names: seq<string>)
    requires forall i, j :: 0 <= i < j < |names| ==> names[i] != names[j]
    requires forall n :: n in NameTotals(events) ==> n in names
    ensures SumOver(NameTotals(events), names) == Sum(Filter(events, Named), Duration)
  {
    var named := Filter(events, Named);
    NameTotalsAreSums(events);
    SumByKeyKeys(named, ShortTotalName, Duration);
    forall i | 0 <= i < |named| ensures ShortTotalName(named[i]) in names {
      assert ShortTotalName(named[i]) in KeysOf(named, ShortTotalName);
    }
    SumOverSumByKey(named, ShortTotalName, Duration, names);
  }

  /** One more event: a named one is appended under its phase name, others are ignored. */
  lemma ItemsByNameStep(prefix: seq<TimingDataItem>, x: TimingDataItem)
    ensures var g := ItemsByName(prefix);
      ItemsByName(prefix + [x]) ==
        if !Named(x) then g
        else g[ShortTotalName(x) := if ShortTotalName(x) in g then g[ShortTotalName(x)] + [x] else [x]]
  {
    FilterSnoc(prefix, x, Named);
    GroupBySnoc(Filter(prefix, Named), x, ShortTotalName);
  }

  /** The grouping loop of `run`. */
  method GroupByName(tds: seq<TimingData>) returns (byName: map<string, seq<TimingDataItem>>)
    ensures byName == ItemsByName(Flatten(EventsOf(tds)))
  {
    ghost var es := EventsOf(tds);
    byName := map[];
    for i := 0 to |tds|
      invariant byName == ItemsByName(Flatten(es[..i]))
    {
      byName := GroupTrace(byName, tds[i].items, Flatten(es[..i]));
      FlattenSnoc(es, i);
    }
    assert es[..|tds|] == es;
  }

  /** The inner loop over one trace's events. */
  method GroupTrace(byName: map<string, seq<TimingDataItem>>, items: seq<TimingDataItem>,
                    ghost before: seq<TimingDataItem>) returns (byName': map<string, seq<TimingDataItem>>)
    requires byName == ItemsByName(before)
    ensures byName' == ItemsByName(before + items)
  {
    byName' := byName;
    ghost var seen := before;
    assert before + items[..0] == before;
    for j := 0 to |items|
      invariant seen == before + items[..j] && byName' == ItemsByName(seen)
    {
      ItemsByNameStep(seen, items[j]);
      if Named(items[j]) {
        var name := ShortTotalName(items[j]);
        if name !in byName' {
          byName' := byName'[name := [items[j]]];
        } else {
          byName' := byName'[name := byName'[name] + [items[j]]];
        }
      }
      AppendPrefixSnoc(before, items, j);
      seen := seen + [items[j]];
    }
    assert items[..|items|] == items;
  }

  method SumDurations(items: seq<TimingDataItem>) returns (total: int)
    ensures total == Sum(items, Duration)
  {
    total := 0;
    for j := 0 to |items|
      invariant total == Sum(items[..j], Duration)
    {
      assert items[..j + 1][..j] == items[..j];
      total := total + items[j].duration;
    }
    assert items[..|items|] == items;
  }

  /** The reporting loop of `run`, over the sorted phase names. */
  method PhaseSummary(byName: map<string, seq<TimingDataItem>>, names: seq<string>)
    returns (summary: map<string, real>, grand: int)
    requires forall n :: n in names <==> n in byName
    ensures summary == KeptPhases(Totals(byName))
    ensures grand == SumOver(Totals(byName), names)
  {
    ghost var totals := Totals(byName);
    summary := map[];
    grand := 0;
    ghost var done: seq<string> := [];
    for k := 0 to |names|
      invariant done == names[..k]
      invariant grand == SumOver(totals, done)
      invariant forall n :: n in summary <==> n in done && !Skipped(totals[n])
      invariant forall n :: n in summary ==> summary[n] == WholeMilliseconds(totals[n])
    {
      var n := names[k];
      var total := SumDurations(byName[n]);
      assert (done + [n])[..k] == done;
      grand := grand + total;
      if !Skipped(total) {
        summary := summary[n := WholeMilliseconds(total)];
      }
      PrefixSnoc(names, k);
      done := done + [n];
    }
    assert names[..|names|] == names;
    assert summary.Keys == KeptPhases(totals).Keys;
  }

  /** The computing part of `run`: the summary of the traces' events. */
  method Compute(tds: seq<TimingData>) returns (summary: map<string, real>)
    ensures summary == Summary(Flatten(EventsOf(tds)))
  {
    var grand;
    summary, grand := Phases(tds);
    summary := summary[TotalKey := WholeMilliseconds(grand)];
  }

  /** The grouping and reporting loops of `run`: the shown phases and the grand total. */
  method Phases(tds: seq<TimingData>) returns (summary: map<string, real>, grand: int)
    ensures summary == KeptPhases(NameTotals(Flatten(EventsOf(tds))))
    ensures grand == Sum(Filter(Flatten(EventsOf(tds)), Named), Duration)
  {
    ghost var events := Flatten(EventsOf(tds));
    var byName := GroupByName(tds);
    var names := SortedKeys(byName.Keys);
    StrictlySortedDistinct(names);
    summary, grand := PhaseSummary(byName, names);
    GrandTotalIsSumOfPhases(events, names);
  }

  /** `run`: the summary is added once. */
  method Run(tds: seq<TimingData>, comparison: Comparison) returns (r: Result<()>)
    modifies comparison
    ensures r.Fatal? <==> ComparisonKey in old(comparison.dict)
    ensures r.Ok? ==>
      comparison.dict == old(comparison.dict)[ComparisonKey := Entry.Summary(old(Summary(Flatten(EventsOf(tds)))))]
    ensures r.Fatal? ==> comparison.dict == old(comparison.dict)
  {
    var summary := Compute(tds);
    r := comparison.AddSummary(ComparisonKey, summary);
  }
}
