/** The find-most-expensive-files tool: the traces of the project, or of each target, from
    the longest to the shortest build. */
module ToolFindMostExpensiveFiles {
  import opened Wrappers
  import opened Strings
  import opened TimingData
  import opened Aggregation
  import Context

  const MergedName := ""
  const MergedFileName := "expensive_files.txt"
  const ByTargetFileName := "expensive_files_by_target.txt"

  /** A bucket of the report: a target name and its traces. */
  type Bucket = (string, seq<TimingData>)

  /** One line of the report: the total time of a trace and its name. */
  type Line = (int, string)

  /** `calculate_total_time` as seen from the trace's current state. */
  function Outcome(td: TimingData): Result<int>
    reads td
  {
    TotalTimeOutcome(td.items, td.timeOffset)
  }

  /** The `calculate_total_time` outcome of every trace, in the current state. */
  function Snapshot(tds: seq<TimingData>): map<TimingData, Result<int>>
    reads set x | x in tds
  {
    map x | x in tds :: Outcome(x)
  }

  /** Whether `snap` records every trace of the bucket. */
  predicate Recorded(snap: map<TimingData, Result<int>>, bucket: seq<TimingData>) {
    forall j :: 0 <= j < |bucket| ==> bucket[j] in snap
  }

  /** Whether every trace of the bucket has a total time in `snap`. */
  predicate Timed(snap: map<TimingData, Result<int>>, bucket: seq<TimingData>)
    requires Recorded(snap, bucket)
  {
    forall j :: 0 <= j < |bucket| ==> snap[bucket[j]].Ok?
  }

  /** The total time `snap` records for a trace; the reports read it only for timed traces. */
  function TimeIn(snap: map<TimingData, Result<int>>, x: TimingData): int {
    if x in snap && snap[x].Ok? then snap[x].value else 0
  }

  /** The line of one trace: its total time and its name. */
  function LineOf(snap: map<TimingData, Result<int>>, x: TimingData): Line {
    (TimeIn(snap, x), x.Name())
  }

  /** The lines of a bucket, in the bucket's order. */
  function Lines(snap: map<TimingData, Result<int>>, bucket: seq<TimingData>): seq<Line> {
    MapSeq(bucket, x => LineOf(snap, x))
  }

  function LineTime(l: Line): int {
    l.0
  }

  /** The section of the report for one timed bucket: its name, then its lines from the
      longest to the shortest time. */
  function Section(snap: map<TimingData, Result<int>>, b: Bucket): (string, seq<Line>) {
    (b.0, SortDesc(Lines(snap, b.1), LineTime))
  }

  /** The lists of the grouping, one after the other, in the order of `keys`. */
  function Concat(keys: seq<string>, g: map<string, seq<TimingData>>): seq<TimingData>
    requires forall i :: 0 <= i < |keys| ==> keys[i] in g
  {
    if keys == [] then [] else Concat(keys[..|keys| - 1], g) + g[keys[|keys| - 1]]
  }

  /** A trace is in the merged list exactly when it is in one of the lists. */
  lemma {:induction false} ConcatMembers(keys: seq<string>, g: map<string, seq<TimingData>>)
    requires forall i :: 0 <= i < |keys| ==> keys[i] in g
    ensures forall x :: x in Concat(keys, g) <==> exists i :: 0 <= i < |keys| && x in g[keys[i]]
  {
    if keys != [] {
      var init := keys[..|keys| - 1];
      ConcatMembers(init, g);
      forall x ensures x in Concat(keys, g) <==> exists i :: 0 <= i < |keys| && x in g[keys[i]] {
        if i :| 0 <= i < |init| && x in g[init[i]] {
          assert keys[i] == init[i];
        }
        if i :| 0 <= i < |keys| - 1 && x in g[keys[i]] {
          assert init[i] == keys[i];
        }
      }
    }
  }

  /** The buckets `_write_summary_to_file` reports, in dictionary order: with at least one
      target and not by target, one bucket holding every target's traces; otherwise the
      grouping by target itself. Every trace of a bucket is one of the context's traces. */
  function Buckets(tds: seq<TimingData>, byTarget: bool): (r: seq<Bucket>)
    ensures forall i, j :: 0 <= i < |r| && 0 <= j < |r[i].1| ==> r[i].1[j] in tds
  {
    var g := Context.Group(tds);
    var keys := Context.GroupOrder(tds);
    ListsInTraces(tds, g, keys);
    if !byTarget && |g| > 0 then
      [(MergedName, Concat(keys, g))]
    else
      seq(|keys|, i requires 0 <= i < |keys| => (keys[i], g[keys[i]]))
  }

  /** The grouping's lists, alone or merged, hold only the context's traces. */
  lemma ListsInTraces(tds: seq<TimingData>, g: map<string, seq<TimingData>>, keys: seq<string>)
    requires g == Context.Group(tds) && keys == Context.GroupOrder(tds)
    ensures forall i :: 0 <= i < |keys| ==> keys[i] in g
    ensures forall i, j :: 0 <= i < |keys| && 0 <= j < |g[keys[i]]| ==> g[keys[i]][j] in tds
    ensures forall j :: 0 <= j < |Concat(keys, g)| ==> Concat(keys, g)[j] in tds
  {
    Context.GroupOrderKeys(tds);
    GroupListsInTraces(tds, g, keys);
    ConcatInTraces(tds, g, keys);
  }

  lemma GroupListsInTraces(tds: seq<TimingData>, g: map<string, seq<TimingData>>, keys: seq<string>)
    requires g == Context.Group(tds)
    requires forall i :: 0 <= i < |keys| ==> keys[i] in g
    ensures forall i, j :: 0 <= i < |keys| && 0 <= j < |g[keys[i]]| ==> g[keys[i]][j] in tds
  {
    Context.GroupMembers(tds);
    forall i, j | 0 <= i < |keys| && 0 <= j < |g[keys[i]]| ensures g[keys[i]][j] in tds {
      assert g[keys[i]][j] in g[keys[i]];
    }
  }

  lemma ConcatInTraces(tds: seq<TimingData>, g: map<string, seq<TimingData>>, keys: seq<string>)
    requires forall i :: 0 <= i < |keys| ==> keys[i] in g
    requires forall i, j :: 0 <= i < |keys| && 0 <= j < |g[keys[i]]| ==> g[keys[i]][j] in tds
    ensures forall j :: 0 <= j < |Concat(keys, g)| ==> Concat(keys, g)[j] in tds
  {
    ConcatMembers(keys, g);
    var c := Concat(keys, g);
    forall j | 0 <= j < |c| ensures c[j] in tds {
      var x := c[j];
      assert x in Concat(keys, g);
      var i :| 0 <= i < |keys| && x in g[keys[i]];
      var k :| 0 <= k < |g[keys[i]]| && g[keys[i]][k] == x;
    }
  }

  /** Merged, the one bucket holds every trace of the context, and only those. */
  lemma MergedBucketCovers(tds: seq<TimingData>)
    ensures var bs := Buckets(tds, false);
      tds != [] ==> |bs| == 1 && bs[0].0 == MergedName && forall x :: x in bs[0].1 <==> x in tds
  {
    var g := Context.Group(tds);
    var keys := Context.GroupOrder(tds);
    if tds != [] {
      Context.GroupOrderKeys(tds);
      Context.GroupMembers(tds);
      assert tds[0].target in g;
      ConcatMembers(keys, g);
      forall x ensures x in Concat(keys, g) <==> x in tds {
        if x in tds {
          var k :| 0 <= k < |keys| && keys[k] == x.target;
        }
      }
    }
  }

  /** By target, each bucket holds exactly the traces of its target, and every trace's
      target has a bucket. */
  lemma TargetBucketsCover(tds: seq<TimingData>)
    ensures var bs := Buckets(tds, true);
      (forall i :: 0 <= i < |bs| ==> forall x :: x in bs[i].1 <==> x in tds && x.target == bs[i].0) &&
      (forall x :: x in tds ==> exists i :: 0 <= i < |bs| && bs[i].0 == x.target)
  {
    var keys := Context.GroupOrder(tds);
    Context.GroupOrderKeys(tds);
    Context.GroupMembers(tds);
    var bs := Buckets(tds, true);
    forall x | x in tds ensures exists i :: 0 <= i < |bs| && bs[i].0 == x.target {
      var k :| 0 <= k < |keys| && keys[k] == x.target;
      assert bs[k].0 == x.target;
    }
  }

  /** There are no buckets exactly when there are no traces. */
  lemma BucketsEmpty(tds: seq<TimingData>, byTarget: bool)
    ensures Buckets(tds, byTarget) == [] <==> tds == []
  {
    Context.GroupOrderKeys(tds);
    Context.GroupMembers(tds);
    if tds != [] {
      assert tds[0].target in Context.Group(tds);
      assert tds[0].target in Context.GroupOrder(tds);
    }
  }

  /** Some bucket holds a trace without total time exactly when some trace has none. */
  lemma FatalIffSomeTrace(tds: seq<TimingData>, byTarget: bool)
    ensures var bs := Buckets(tds, byTarget);
      (exists i, j :: 0 <= i < |bs| && 0 <= j < |bs[i].1| && Outcome(bs[i].1[j]).Fatal?) <==>
      (exists i :: 0 <= i < |tds| && Outcome(tds[i]).Fatal?)
  {
    var bs := Buckets(tds, byTarget);
    if byTarget {
      TargetBucketsCover(tds);
    } else {
      MergedBucketCovers(tds);
    }
    if i :| 0 <= i < |tds| && Outcome(tds[i]).Fatal? {
      var x := tds[i];
      if byTarget {
        var k :| 0 <= k < |bs| && bs[k].0 == x.target;
        assert x in bs[k].1;
        var j :| 0 <= j < |bs[k].1| && bs[k].1[j] == x;
      } else {
        assert x in bs[0].1;
        var j :| 0 <= j < |bs[0].1| && bs[0].1[j] == x;
      }
    }
    if i, j :| 0 <= i < |bs| && 0 <= j < |bs[i].1| && Outcome(bs[i].1[j]).Fatal? {
      var x := bs[i].1[j];
      var k :| 0 <= k < |tds| && tds[k] == x;
    }
  }

  /** `calculate_total_time` on one trace: its outcome, which caching leaves unchanged. */
  method CachedTotal(td: TimingData) returns (r: Result<int>)
    modifies td
    ensures r == old(Outcome(td)) && (r.Ok? ==> Outcome(td) == r)
  {
    TotalTimeCached(td.items, td.timeOffset);
    r := td.CalculateTotalTime();
  }

  /** The rows `snap` recorded are still those of the traces. */
  predicate Current(snap: map<TimingData, Result<int>>, tds: seq<TimingData>)
    reads set x | x in tds
  {
    forall x :: x in tds ==> x in snap && snap[x] == Outcome(x)
  }

  /** The total times of `bucket`, computed in turn; the first failure ends the run. Each
      computation caches its value in the trace, which leaves the value unchanged. */
  method TimeBucket(bucket: seq<TimingData>, tds: seq<TimingData>, ghost snap: map<TimingData, Result<int>>)
    returns (r: Result<seq<Line>>)
    requires forall j :: 0 <= j < |bucket| ==> bucket[j] in tds
    requires Current(snap, tds)
    modifies tds
    ensures Recorded(snap, bucket)
    ensures r.Fatal? <==> exists j :: 0 <= j < |bucket| && snap[bucket[j]].Fatal?
    ensures r.Ok? ==> Timed(snap, bucket) && r.value == Lines(snap, bucket)
    ensures r.Ok? ==> Current(snap, tds)
  {
    var lines := [];
    for j := 0 to |bucket|
      invariant Current(snap, tds)
      invariant Timed(snap, bucket[..j])
      invariant lines == Lines(snap, bucket[..j])
    {
      var td := bucket[j];
      var total := TimeTrace(td, tds, snap);
      if total.Fatal? {
        return Fatal(total.message);
      }
      LinesSnoc(snap, bucket, j);
      lines := lines + [(total.value, td.Name())];
    }
    assert bucket[..|bucket|] == bucket;
    return Ok(lines);
  }

  /** One total time of the loop: the recorded outcome, still current after caching. */
  method TimeTrace(td: TimingData, tds: seq<TimingData>, ghost snap: map<TimingData, Result<int>>)
    returns (total: Result<int>)
    requires td in tds && Current(snap, tds)
    modifies td
    ensures td in snap && total == snap[td]
    ensures total.Ok? ==> Current(snap, tds)
  {
    total := CachedTotal(td);
  }

  /** A timed trace adds its line to the lines of the traces before it. */
  lemma LinesSnoc(snap: map<TimingData, Result<int>>, bucket: seq<TimingData>, j: int)
    requires 0 <= j < |bucket| && Recorded(snap, bucket)
    requires Timed(snap, bucket[..j]) && snap[bucket[j]].Ok?
    ensures Timed(snap, bucket[..j + 1])
    ensures Lines(snap, bucket[..j + 1]) == Lines(snap, bucket[..j]) + [(snap[bucket[j]].value, bucket[j].Name())]
  {
    assert bucket[..j + 1][..j] == bucket[..j];
  }

  /** Whether `snap` records every trace of every bucket, each with a total time. */
  predicate AllTimed(snap: map<TimingData, Result<int>>, bs: seq<Bucket>) {
    forall i :: 0 <= i < |bs| ==> Recorded(snap, bs[i].1) && Timed(snap, bs[i].1)
  }

  /** The sections of the report, one per bucket, in the buckets' order. */
  function Sections(snap: map<TimingData, Result<int>>, bs: seq<Bucket>): seq<(string, seq<Line>)> {
    MapSeq(bs, b => Section(snap, b))
  }

  /** The sorting loop of `_write_summary_to_file`: each bucket's lines, from the longest to
      the shortest time. */
  method TimeBuckets(bs: seq<Bucket>, tds: seq<TimingData>, ghost snap: map<TimingData, Result<int>>)
    returns (r: Result<seq<(string, seq<Line>)>>)
    requires forall i, j :: 0 <= i < |bs| && 0 <= j < |bs[i].1| ==> bs[i].1[j] in tds
    requires Current(snap, tds)
    modifies tds
    ensures r.Fatal? <==> exists i, j :: 0 <= i < |bs| && 0 <= j < |bs[i].1| && snap[bs[i].1[j]].Fatal?
    ensures r.Ok? ==> AllTimed(snap, bs) && r.value == Sections(snap, bs)
    ensures r.Ok? ==> Current(snap, tds)
  {
    var sections: seq<(string, seq<Line>)> := [];
    for i := 0 to |bs|
      invariant Current(snap, tds)
      invariant AllTimed(snap, bs[..i]) && sections == Sections(snap, bs[..i])
    {
      var section := TimeSection(bs[i], tds, snap);
      if section.Fatal? {
        ghost var j :| 0 <= j < |bs[i].1| && snap[bs[i].1[j]].Fatal?;
        assert 0 <= i < |bs| && 0 <= j < |bs[i].1| && snap[bs[i].1[j]].Fatal?;
        return Fatal(section.message);
      }
      SectionsSnoc(snap, bs, i);
      sections := sections + [section.value];
    }
    assert bs[..|bs|] == bs;
    NoneFailed(bs, snap);
    return Ok(sections);
  }

  lemma SectionsSnoc(snap: map<TimingData, Result<int>>, bs: seq<Bucket>, i: int)
    requires 0 <= i < |bs| && AllTimed(snap, bs[..i])
    requires Recorded(snap, bs[i].1) && Timed(snap, bs[i].1)
    ensures AllTimed(snap, bs[..i + 1])
    ensures Sections(snap, bs[..i + 1]) == Sections(snap, bs[..i]) + [Section(snap, bs[i])]
  {
    assert bs[..i + 1][..i] == bs[..i];
  }

  /** One bucket's section of the report. */
  method TimeSection(b: Bucket, tds: seq<TimingData>, ghost snap: map<TimingData, Result<int>>)
    returns (r: Result<(string, seq<Line>)>)
    requires forall j :: 0 <= j < |b.1| ==> b.1[j] in tds
    requires Current(snap, tds)
    modifies tds
    ensures r.Fatal? <==> exists j :: 0 <= j < |b.1| && snap[b.1[j]].Fatal?
    ensures r.Ok? ==> Recorded(snap, b.1) && Timed(snap, b.1) && r.value == Section(snap, b)
    ensures r.Ok? ==> Current(snap, tds)
  {
    var lines := TimeBucket(b.1, tds, snap);
    if lines.Fatal? {
      return Fatal(lines.message);
    }
    return Ok((b.0, SortDesc(lines.value, LineTime)));
  }

  /** When every bucket is timed, no trace of any bucket failed. */
  lemma NoneFailed(bs: seq<Bucket>, snap: map<TimingData, Result<int>>)
    requires AllTimed(snap, bs)
    requires forall i, j :: 0 <= i < |bs| && 0 <= j < |bs[i].1| ==> bs[i].1[j] in snap
    ensures !exists i, j :: 0 <= i < |bs| && 0 <= j < |bs[i].1| && snap[bs[i].1[j]].Fatal?
  {
  }

  /** A snapshot that is current is the snapshot of the current state. */
  lemma CurrentIsSnapshot(snap: map<TimingData, Result<int>>, tds: seq<TimingData>)
    requires Current(snap, tds) && snap.Keys == set x | x in tds
    ensures Snapshot(tds) == snap
  {
  }

  /** `_write_summary_to_file`: `None` when there is nothing to report (no file is written);
      otherwise the report, one section per bucket with its lines from the longest to the
      shortest time. Computing the times leaves every trace's row unchanged. */
  method WriteSummary(tds: seq<TimingData>, byTarget: bool) returns (r: Result<Option<seq<(string, seq<Line>)>>>)
    modifies tds
    ensures r.Fatal? <==> exists i :: 0 <= i < |tds| && old(Outcome(tds[i])).Fatal?
    ensures r.Ok? ==> (r.value.None? <==> tds == [])
    ensures r.Ok? && r.value.Some? ==>
      AllTimed(old(Snapshot(tds)), Buckets(tds, byTarget)) &&
      r.value.value == Sections(old(Snapshot(tds)), Buckets(tds, byTarget))
    ensures r.Ok? ==> Snapshot(tds) == old(Snapshot(tds))
  {
    ghost var snap := Snapshot(tds);
    var buckets := GatherBuckets(tds, byTarget);
    FatalIffSomeTrace(tds, byTarget);
    BucketsEmpty(tds, byTarget);
    var sections := TimeBuckets(buckets, tds, snap);
    if sections.Fatal? {
      return Fatal(sections.message);
    }
    CurrentIsSnapshot(snap, tds);
    if |buckets| == 0 {
      return Ok(None);
    }
    return Ok(Some(sections.value));
  }

  /** The two dictionary loops of `_write_summary_to_file`: the grouping, merged into one
      list unless reporting by target. */
  method GatherBuckets(tds: seq<TimingData>, byTarget: bool) returns (buckets: seq<Bucket>)
    ensures buckets == Buckets(tds, byTarget)
  {
    var g := Context.Group(tds);
    var keys := Context.GroupOrder(tds);
    Context.GroupOrderKeys(tds);
    if !byTarget && |g| > 0 {
      var merged := MergeLists(keys, g);
      buckets := [(MergedName, merged)];
    } else {
      buckets := ListBuckets(keys, g);
    }
  }

  /** The merging loop: every list of the grouping, in the order of `keys`. */
  method MergeLists(keys: seq<string>, g: map<string, seq<TimingData>>) returns (merged: seq<TimingData>)
    requires forall i :: 0 <= i < |keys| ==> keys[i] in g
    ensures merged == Concat(keys, g)
  {
    merged := [];
    for i := 0 to |keys|
      invariant merged == Concat(keys[..i], g)
    {
      assert keys[..i + 1][..i] == keys[..i];
      merged := merged + g[keys[i]];
    }
    assert keys[..|keys|] == keys;
  }

  /** The by-target loop: one bucket per key, holding that key's list. */
  method ListBuckets(keys: seq<string>, g: map<string, seq<TimingData>>) returns (buckets: seq<Bucket>)
    requires forall i :: 0 <= i < |keys| ==> keys[i] in g
    ensures |buckets| == |keys| && forall i :: 0 <= i < |keys| ==> buckets[i] == (keys[i], g[keys[i]])
  {
    buckets := [];
    for i := 0 to |keys|
      invariant |buckets| == i && forall m :: 0 <= m < i ==> buckets[m] == (keys[m], g[keys[m]])
    {
      buckets := buckets + [(keys[i], g[keys[i]])];
    }
  }

  /** `run`: the merged report, then the report by target. */
  method Run(tds: seq<TimingData>)
    returns (r: Result<()>, merged: Option<seq<(string, seq<Line>)>>, byTarget: Option<seq<(string, seq<Line>)>>)
    modifies tds
    ensures r.Fatal? <==> exists i :: 0 <= i < |tds| && old(Outcome(tds[i])).Fatal?
    ensures r.Ok? ==> (merged.None? <==> tds == []) && (byTarget.None? <==> tds == [])
    ensures r.Ok? && merged.Some? ==>
      AllTimed(old(Snapshot(tds)), Buckets(tds, false)) &&
      merged.value == Sections(old(Snapshot(tds)), Buckets(tds, false))
    ensures r.Ok? && byTarget.Some? ==>
      AllTimed(old(Snapshot(tds)), Buckets(tds, true)) &&
      byTarget.value == Sections(old(Snapshot(tds)), Buckets(tds, true))
  {
    merged, byTarget := None, None;
    var m := WriteSummary(tds, false);
    if m.Fatal? {
      return Fatal(m.message), merged, byTarget;
    }
    merged := m.value;
    forall i | 0 <= i < |tds| ensures Outcome(tds[i]) == old(Outcome(tds[i])) {
      assert Snapshot(tds)[tds[i]] == old(Snapshot(tds))[tds[i]];
    }
    var b := WriteSummary(tds, true);
    // every total time is cached by now, so the second report cannot fail
    assert b.Ok?;
    byTarget := b.value;
    r := Ok(());
  }

}
