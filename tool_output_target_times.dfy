/** The target-times tool: the compile time of each target, summed over the per-file
    `Total ExecuteCompiler` events, and the comparison summary built from it. */
module ToolOutputTargetTimes {
  import opened Wrappers
  import opened Strings
  import opened TimingDataItem
  import opened TimingData
  import opened Comparison
  import opened Aggregation

  const ComparisonKey := "Target Times"
  const TotalKey := "*** Total ***"

  /** A trace as this tool reads it: its target and its events. */
  type Trace = (string, seq<TimingDataItem>)

  function TracesOf(tds: seq<TimingData>): (r: seq<Trace>)
    reads tds
    ensures |r| == |tds| && forall i :: 0 <= i < |tds| ==> r[i] == (tds[i].target, tds[i].items)
  {
    if tds == [] then [] else TracesOf(tds[..|tds| - 1]) + [(tds[|tds| - 1].target, tds[|tds| - 1].items)]
  }

  function TraceTarget(t: Trace): string {
    t.0
  }

  /** What an event adds to its target: its duration if it is the per-file sentinel. */
  function SentinelDuration(e: TimingDataItem): int {
    if IsTotalExecuteCompiler(e) then e.duration else 0
  }

  function TraceTime(t: Trace): int {
    Sum(t.1, SentinelDuration)
  }

  /** Only sentinel durations are counted. */
  lemma {:induction false} SentinelsOnly(items: seq<TimingDataItem>)
    ensures Sum(items, SentinelDuration) == Sum(Filter(items, IsTotalExecuteCompiler), Duration)
  {
    if items != [] {
      var init := items[..|items| - 1];
      var last := items[|items| - 1];
      SentinelsOnly(init);
      var tail := if IsTotalExecuteCompiler(last) then [last] else [];
      SumAppend(Filter(init, IsTotalExecuteCompiler), tail, Duration);
      if IsTotalExecuteCompiler(last) {
        assert tail[..0] == [];
      }
    }
  }

  /** `target_times`: raw microseconds per target. */
  function TargetTimes(ts: seq<Trace>): map<string, int> {
    SumByKey(ts, TraceTarget, TraceTime)
  }

  /** `summary_total_time`. */
  function GrandTotal(ts: seq<Trace>): int {
    Sum(ts, TraceTime)
  }

  /** Every target seen has an entry, even with total 0, and its entry sums the sentinel
      durations of that target's traces. */
  lemma TargetTimesAre(ts: seq<Trace>)
    ensures TargetTimes(ts).Keys == set i | 0 <= i < |ts| :: ts[i].0
    ensures forall t :: t in TargetTimes(ts) ==> TargetTimes(ts)[t] == Sum(Having(ts, TraceTarget, t), TraceTime)
  {
    SumByKeyIsGroupSum(ts, TraceTarget, TraceTime);
    assert KeysOf(ts, TraceTarget) == set i | 0 <= i < |ts| :: ts[i].0;
  }

  /** The grand total is the sum of the per-target totals, over any listing of the targets
      without repetitions. */
  lemma GrandTotalIsSumOfTargets(ts: seq<Trace>, targets: seq<string>)
    requires forall i, j :: 0 <= i < j < |targets| ==> targets[i] != targets[j]
    requires forall t :: t in TargetTimes(ts) ==> t in targets
    ensures SumOver(TargetTimes(ts), targets) == GrandTotal(ts)
  {
    TargetTimesAre(ts);
    forall i | 0 <= i < |ts| ensures TraceTarget(ts[i]) in targets {
      assert ts[i].0 in TargetTimes(ts).Keys;
    }
    SumOverSumByKey(ts, TraceTarget, TraceTime, targets);
  }

  /** The summary: milliseconds per target, truncated, and the truncated grand total. */
  function Summary(ts: seq<Trace>): map<string, real> {
    InMilliseconds(TargetTimes(ts))[TotalKey := WholeMilliseconds(GrandTotal(ts))]
  }

  /** Every time of the map in whole milliseconds. */
  function InMilliseconds(times: map<string, int>): map<string, real> {
    map t | t in times :: WholeMilliseconds(times[t])
  }

  /** The inner loop of `run`: adds the trace's sentinel durations to its target's time
      and to the grand total. */
  method AddSentinels(items: seq<TimingDataItem>, existing: int, total: int)
    returns (existing': int, total': int)
    ensures existing' == existing + Sum(items, SentinelDuration)
    ensures total' == total + Sum(items, SentinelDuration)
  {
    existing', total' := existing, total;
    for j := 0 to |items|
      invariant existing' == existing + Sum(items[..j], SentinelDuration)
      invariant total' == total + Sum(items[..j], SentinelDuration)
    {
      assert items[..j + 1][..j] == items[..j];
      if !IsTotalExecuteCompiler(items[j]) {
        continue;
      }
      existing' := existing' + items[j].duration;
      total' := total' + items[j].duration;
    }
    assert items[..|items|] == items;
  }

  /** The outer loop of `run`. */
  method CollectTargetTimes(tds: seq<TimingData>) returns (targetTimes: map<string, int>, total: int)
    ensures targetTimes == TargetTimes(TracesOf(tds)) && total == GrandTotal(TracesOf(tds))
  {
    ghost var ts := TracesOf(tds);
    targetTimes := map[];
    total := 0;
    ghost var done: seq<Trace> := [];
    for i := 0 to |tds|
      invariant done == ts[..i]
      invariant targetTimes == TargetTimes(done) && total == GrandTotal(done)
    {
      targetTimes, total := AddTrace(targetTimes, total, tds[i], done);
      PrefixSnoc(ts, i);
      done := done + [ts[i]];
    }
    assert ts[..|tds|] == ts;
  }

  /** The body of the outer loop: the trace's sentinels are added to its target's time,
      which starts at zero, and to the grand total. */
  method AddTrace(targetTimes: map<string, int>, total: int, td: TimingData, ghost done: seq<Trace>)
    returns (targetTimes': map<string, int>, total': int)
    requires targetTimes == TargetTimes(done) && total == GrandTotal(done)
    ensures targetTimes' == TargetTimes(done + [(td.target, td.items)])
    ensures total' == GrandTotal(done + [(td.target, td.items)])
  {
    var target := td.target;
    var existing := 0;
    if target in targetTimes {
      existing := targetTimes[target];
    }
    existing, total' := AddSentinels(td.items, existing, total);
    targetTimes' := targetTimes[target := existing];
    SumByKeySnoc(done, (td.target, td.items), TraceTarget, TraceTime);
    SumSnoc(done, (td.target, td.items), TraceTime);
  }

  /** The report loop: milliseconds per target, visited in sorted order. */
  method TargetMilliseconds(targetTimes: map<string, int>, targets: seq<string>) returns (summary: map<string, real>)
    requires forall t :: t in targets <==> t in targetTimes
    ensures summary == InMilliseconds(targetTimes)
  {
    summary := map[];
    for k := 0 to |targets|
      invariant forall t :: t in summary <==> t in targets[..k]
      invariant forall t :: t in summary ==> summary[t] == WholeMilliseconds(targetTimes[t])
    {
      PrefixSnoc(targets, k);
      summary := summary[targets[k] := WholeMilliseconds(targetTimes[targets[k]])];
    }
    assert targets[..|targets|] == targets;
    assert summary.Keys == InMilliseconds(targetTimes).Keys;
  }

  /** The computing part of `run`: nothing when there is no trace, else the summary. */
  method Compute(tds: seq<TimingData>) returns (summary: Option<map<string, real>>)
    ensures summary.None? <==> tds == []
    ensures summary.Some? ==> summary.value == Summary(TracesOf(tds))
  {
    var targetTimes, total := CollectTargetTimes(tds);
    var targets := SortedKeys(targetTimes.Keys);
    assert tds != [] ==> TracesOf(tds)[0].0 in targetTimes by {
      TargetTimesAre(TracesOf(tds));
    }
    if |targets| == 0 {
      return None;
    }
    var times := TargetMilliseconds(targetTimes, targets);
    return Some(times[TotalKey := WholeMilliseconds(total)]);
  }

  /** `run`: with no trace, only a warning; otherwise the summary is added once. */
  method Run(tds: seq<TimingData>, comparison: Comparison) returns (r: Result<()>)
    modifies comparison
    ensures tds == [] ==> r == Ok(()) && comparison.dict == old(comparison.dict)
    ensures tds != [] ==> (r.Fatal? <==> ComparisonKey in old(comparison.dict))
    ensures tds != [] && r.Ok? ==>
      comparison.dict == old(comparison.dict)[ComparisonKey := Entry.Summary(Summary(TracesOf(tds)))]
    ensures r.Fatal? ==> comparison.dict == old(comparison.dict)
  {
    var summary := Compute(tds);
    if summary.None? {
      return Ok(());
    }
    r := comparison.AddSummary(ComparisonKey, summary.value);
  }
}
