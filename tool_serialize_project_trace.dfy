/** The serialize-project-trace tool: every trace joined, one after another, into a single
    project trace, and the CPU time that trace adds up to. */
module ToolSerializeProjectTrace {
  import opened Wrappers
  import opened Json
  import opened Strings
  import Paths
  import opened PathShortener
  import opened TimingDataItem
  import opened TimingData
  import opened Comparison
  import opened Aggregation

  const ComparisonKey := "Serial Times"
  const TotalCpuKey := "Total CPU seconds"
  const AverageCpuKey := "Average CPU second per item"
  const TraceFileName := "serial_trace.json"

  /** The time offset of the project trace after joining the traces with events `srcs`:
      each join advances it by the end of that trace's last sentinel. */
  function Offset(srcs: seq<seq<TimingDataItem>>): int {
    Sum(srcs, LastSentinelTotal)
  }

  /** The events of the project trace after joining the traces with events `srcs`, in order,
      onto an empty one. */
  function Joined(srcs: seq<seq<TimingDataItem>>): seq<TimingDataItem> {
    if srcs == [] then []
    else
      var init := srcs[..|srcs| - 1];
      Joined(init) + Moved(srcs[|srcs| - 1], Offset(init), Joined(init))
  }

  /** Trace `i` of `srcs` as `join` leaves it: moved past the traces joined before it. */
  function MovedAt(srcs: seq<seq<TimingDataItem>>, i: nat): seq<TimingDataItem>
    requires i < |srcs|
  {
    Moved(srcs[i], Offset(srcs[..i]), Joined(srcs[..i]))
  }

  /** Every trace of `srcs` as `join` leaves it, in order. */
  function MovedAll(srcs: seq<seq<TimingDataItem>>): (r: seq<seq<TimingDataItem>>)
    ensures |r| == |srcs|
  {
    if srcs == [] then []
    else
      var init := srcs[..|srcs| - 1];
      MovedAll(init) + [Moved(srcs[|srcs| - 1], Offset(init), Joined(init))]
  }

  lemma MovedAllSnoc(srcs: seq<seq<TimingDataItem>>, s: seq<TimingDataItem>)
    ensures MovedAll(srcs + [s]) == MovedAll(srcs) + [Moved(s, Offset(srcs), Joined(srcs))]
  {
    var ys := srcs + [s];
    assert ys[..|ys| - 1] == srcs && ys[|ys| - 1] == s;
  }

  /** Each joined trace depends only on itself and the traces joined before it. */
  lemma {:induction false} MovedAllAt(srcs: seq<seq<TimingDataItem>>, i: nat)
    requires i < |srcs|
    ensures MovedAll(srcs)[i] == MovedAt(srcs, i)
    decreases |srcs|
  {
    var init := srcs[..|srcs| - 1];
    if i < |init| {
      MovedAllAt(init, i);
      assert init[..i] == srcs[..i];
    }
  }

  /** The project trace is the joined traces, one after another. */
  lemma {:induction false} JoinedFlattensMoved(srcs: seq<seq<TimingDataItem>>)
    ensures Joined(srcs) == Flatten(MovedAll(srcs))
    decreases |srcs|
  {
    if srcs != [] {
      var init := srcs[..|srcs| - 1];
      JoinedFlattensMoved(init);
      var m := MovedAll(srcs);
      assert m[..|m| - 1] == MovedAll(init);
    }
  }

  lemma JoinedSnoc(srcs: seq<seq<TimingDataItem>>, s: seq<TimingDataItem>)
    ensures Joined(srcs + [s]) == Joined(srcs) + Moved(s, Offset(srcs), Joined(srcs))
    ensures Offset(srcs + [s]) == Offset(srcs) + LastSentinelTotal(s)
  {
    var ys := srcs + [s];
    assert ys[..|ys| - 1] == srcs && ys[|ys| - 1] == s;
  }

  /** The project trace holds every event of every trace, in discovery order, with its
      arguments, file name and duration unchanged. */
  lemma {:induction false} JoinedEvents(srcs: seq<seq<TimingDataItem>>)
    ensures |Joined(srcs)| == |Flatten(srcs)|
    ensures forall k :: 0 <= k < |Flatten(srcs)| ==>
      Joined(srcs)[k].dict == Flatten(srcs)[k].dict && Joined(srcs)[k].duration == Flatten(srcs)[k].duration &&
      Joined(srcs)[k].filename == Flatten(srcs)[k].filename
  {
    if srcs != [] {
      var init := srcs[..|srcs| - 1];
      var last := srcs[|srcs| - 1];
      JoinedEvents(init);
      var acc := Joined(init);
      var moved := Moved(last, Offset(init), acc);
      MovedEach(last, Offset(init), acc);
      var r := Joined(srcs);
      assert r == acc + moved;
      var flat := Flatten(srcs);
      assert flat == Flatten(init) + last;
      forall k | 0 <= k < |flat|
        ensures r[k].dict == flat[k].dict && r[k].duration == flat[k].duration && r[k].filename == flat[k].filename
      {
        if k >= |acc| {
          assert r[k] == moved[k - |acc|] && flat[k] == last[k - |acc|];
        } else {
          assert r[k] == acc[k] && flat[k] == Flatten(init)[k];
        }
      }
    }
  }

  /** All events of the project trace carry one process and thread id: those of the first
      event of the first trace that has events. */
  lemma {:induction false} JoinedOneProcess(srcs: seq<seq<TimingDataItem>>)
    ensures forall k :: 0 <= k < |Joined(srcs)| ==>
      Joined(srcs)[k].pid == Joined(srcs)[0].pid && Joined(srcs)[k].tid == Joined(srcs)[0].tid
  {
    if srcs != [] {
      var init := srcs[..|srcs| - 1];
      var last := srcs[|srcs| - 1];
      JoinedOneProcess(init);
      var acc := Joined(init);
      var moved := Moved(last, Offset(init), acc);
      assert Joined(srcs) == acc + moved;
      forall k | 0 <= k < |moved|
        ensures moved[k].pid == (if acc != [] then acc[0] else moved[0]).pid
        ensures moved[k].tid == (if acc != [] then acc[0] else moved[0]).tid
      {
        MovedPid(last, Offset(init), acc, k);
        MovedPid(last, Offset(init), acc, 0);
      }
      OneProcessAppend(acc, moved);
    }
  }

  /** Appending events that carry the ids of the first event keeps one process and thread. */
  lemma OneProcessAppend(acc: seq<TimingDataItem>, moved: seq<TimingDataItem>)
    requires forall k :: 0 <= k < |acc| ==> acc[k].pid == acc[0].pid && acc[k].tid == acc[0].tid
    requires forall k :: 0 <= k < |moved| ==>
      moved[k].pid == (if acc != [] then acc[0] else moved[0]).pid &&
      moved[k].tid == (if acc != [] then acc[0] else moved[0]).tid
    ensures forall k :: 0 <= k < |acc + moved| ==>
      (acc + moved)[k].pid == (acc + moved)[0].pid && (acc + moved)[k].tid == (acc + moved)[0].tid
  {
    var r := acc + moved;
    forall k | 0 <= k < |r| ensures r[k].pid == r[0].pid && r[k].tid == r[0].tid {
      if k < |acc| {
        assert r[k] == acc[k] && r[0] == acc[0];
      } else {
        assert r[k] == moved[k - |acc|];
        assert r[0] == if acc != [] then acc[0] else moved[0];
      }
    }
  }

  lemma MovedPid(src: seq<TimingDataItem>, offset: int, acc: seq<TimingDataItem>, i: int)
    requires 0 <= i < |src|
    ensures var anchor := if acc != [] then acc[0] else src[0];
      Moved(src, offset, acc)[i].pid == anchor.pid && Moved(src, offset, acc)[i].tid == anchor.tid
  {
  }

  /** `utils.truncation.truncate_to_place`, over the reals: cut after `places` decimals,
      toward zero. */
  function TruncPlace(x: real, places: nat): real {
    var p := Pow10(places) as real;
    Trunc(x * p) as real / p
  }

  /** Truncation moves a value toward zero and never past it. */
  lemma TruncPlaceBounds(x: real, places: nat)
    ensures x >= 0.0 ==> 0.0 <= TruncPlace(x, places) <= x
    ensures x <= 0.0 ==> x <= TruncPlace(x, places) <= 0.0
  {
    var p := Pow10(places) as real;
    if x >= 0.0 {
      TruncNonNeg(x, p);
    } else {
      TruncNeg(x, p);
    }
  }

  lemma TruncNonNeg(x: real, p: real)
    requires x >= 0.0 && p >= 1.0
    ensures 0.0 <= Trunc(x * p) as real / p <= x
  {
    var y := x * p;
    var t := Trunc(y) as real;
    assert x == y / p;
    NonNegProduct(x, p);
    assert 0.0 <= t <= y;
    DivMonotone(0.0, t, p);
    DivMonotone(t, y, p);
  }

  lemma TruncNeg(x: real, p: real)
    requires x < 0.0 && p >= 1.0
    ensures x <= Trunc(x * p) as real / p <= 0.0
  {
    var y := x * p;
    var t := Trunc(y) as real;
    assert x == y / p;
    NonPosProduct(x, p);
    assert y <= t <= 0.0;
    DivMonotone(t, 0.0, p);
    DivMonotone(y, t, p);
  }

  lemma NonNegProduct(x: real, p: real)
    requires x >= 0.0 && p > 0.0
    ensures x * p >= 0.0
  {
  }

  lemma NonPosProduct(x: real, p: real)
    requires x < 0.0 && p > 0.0
    ensures x * p < 0.0
  {
  }

  lemma DivMonotone(a: real, b: real, p: real)
    requires a <= b && p > 0.0
    ensures a / p <= b / p
  {
  }

  function Pow10(n: nat): (r: nat)
    ensures r >= 1
  {
    if n == 0 then 1 else 10 * Pow10(n - 1)
  }

  /** The summary: the total CPU seconds, truncated to 4 places, and their average per
      trace, truncated to 2; no traces averages over 1. */
  function Summary(totalTime: int, count: nat): (r: map<string, real>)
    ensures r.Keys == {TotalCpuKey, AverageCpuKey}
    ensures var total := TruncPlace(totalTime as real / 1000000.0, 4);
      r[TotalCpuKey] == total &&
      r[AverageCpuKey] == TruncPlace(total / (if count == 0 then 1 else count) as real, 2)
  {
    var total := TruncPlace(totalTime as real / 1000000.0, 4);
    var denominator := if count == 0 then 1 else count;
    map[TotalCpuKey := total, AverageCpuKey := TruncPlace(total / denominator as real, 2)]
  }

  /** The average never exceeds the total for a non-negative total, and equals its own
      truncation when there are no traces. */
  lemma AverageBounded(totalTime: int, count: nat)
    requires totalTime >= 0
    ensures 0.0 <= Summary(totalTime, count)[AverageCpuKey] <= Summary(totalTime, count)[TotalCpuKey]
    ensures count <= 1 ==> Summary(totalTime, count)[AverageCpuKey] == TruncPlace(Summary(totalTime, count)[TotalCpuKey], 2)
  {
    var total := TruncPlace(totalTime as real / 1000000.0, 4);
    TruncPlaceBounds(totalTime as real / 1000000.0, 4);
    var d := (if count == 0 then 1 else count) as real;
    var q := total / d;
    assert q * d == total;
    assert q >= 0.0;
    assert q <= total by {
      assert q * d >= q * 1.0;
    }
    TruncPlaceBounds(q, 2);
  }

  /** The loop of `run`: every trace joined onto the project trace in turn. */
  method JoinAll(entire: TimingData, tds: seq<TimingData>)
    requires entire.items == [] && entire.timeOffset == 0
    requires entire !in tds
    requires forall i, j :: 0 <= i < j < |tds| ==> tds[i] != tds[j]
    modifies entire, tds
    ensures entire.items == Joined(old(EventsOf(tds))) && entire.timeOffset == Offset(old(EventsOf(tds)))
    ensures forall i :: 0 <= i < |tds| ==>
      tds[i].items == MovedAt(old(EventsOf(tds)), i)
    ensures forall i :: 0 <= i < |tds| ==> tds[i].timeOffset == old(tds[i].timeOffset)
  {
    ghost var srcs := EventsOf(tds);
    ghost var offs := OffsetsOf(tds);
    ghost var moved: seq<seq<TimingDataItem>> := [];
    assert srcs[..|tds|] == srcs;
    for i := 0 to |tds|
      invariant entire.items == Joined(srcs[..i]) && entire.timeOffset == Offset(srcs[..i])
      invariant moved == MovedAll(srcs[..i])
      invariant JoinedUpTo(tds, i, moved, srcs, offs)
    {
      moved := JoinStep(entire, tds, i, srcs, moved, offs);
    }
    JoinedAllTraces(tds, moved, srcs, offs);
  }

  /** The timing offsets of `tds`, in order. */
  function OffsetsOf(tds: seq<TimingData>): (r: seq<int>)
    reads tds
    ensures |r| == |tds| && forall i :: 0 <= i < |tds| ==> r[i] == tds[i].timeOffset
  {
    if tds == [] then [] else OffsetsOf(tds[..|tds| - 1]) + [tds[|tds| - 1].timeOffset]
  }

  /** The loop's progress: the first `i` traces hold `moved`, the rest still hold `srcs`,
      and no offset has changed. */
  ghost predicate JoinedUpTo(tds: seq<TimingData>, i: nat, moved: seq<seq<TimingDataItem>>,
                             srcs: seq<seq<TimingDataItem>>, offs: seq<int>)
    reads tds
  {
    |moved| == i <= |tds| == |srcs| == |offs| &&
    forall j :: 0 <= j < |tds| ==>
      tds[j].items == (if j < i then moved[j] else srcs[j]) && tds[j].timeOffset == offs[j]
  }

  /** When the loop ends, every trace holds its moved events and its old offset. */
  lemma JoinedAllTraces(tds: seq<TimingData>, moved: seq<seq<TimingDataItem>>,
                        srcs: seq<seq<TimingDataItem>>, offs: seq<int>)
    requires moved == MovedAll(srcs) && JoinedUpTo(tds, |tds|, moved, srcs, offs)
    ensures forall k :: 0 <= k < |tds| ==> tds[k].items == MovedAt(srcs, k) && tds[k].timeOffset == offs[k]
  {
    forall k | 0 <= k < |tds|
      ensures tds[k].items == MovedAt(srcs, k)
    {
      MovedAllAt(srcs, k);
    }
  }

  /** One pass of the loop: trace `i` is joined, and no other trace changes. */
  method JoinStep(entire: TimingData, tds: seq<TimingData>, i: nat, ghost srcs: seq<seq<TimingDataItem>>,
                  ghost moved: seq<seq<TimingDataItem>>, ghost offs: seq<int>)
    returns (ghost moved': seq<seq<TimingDataItem>>)
    requires i < |tds| == |srcs| && entire !in tds
    requires forall i, j :: 0 <= i < j < |tds| ==> tds[i] != tds[j]
    requires entire.items == Joined(srcs[..i]) && entire.timeOffset == Offset(srcs[..i])
    requires moved == MovedAll(srcs[..i]) && JoinedUpTo(tds, i, moved, srcs, offs)
    modifies entire, tds[i]
    ensures entire.items == Joined(srcs[..i + 1]) && entire.timeOffset == Offset(srcs[..i + 1])
    ensures moved' == MovedAll(srcs[..i + 1]) && JoinedUpTo(tds, i + 1, moved', srcs, offs)
  {
    PrefixSnoc(srcs, i);
    MovedAllSnoc(srcs[..i], srcs[i]);
    JoinNext(entire, tds[i], srcs[..i]);
    moved' := moved + [tds[i].items];
    forall j | 0 <= j < |tds| && j != i
      ensures tds[j].items == old(tds[j].items) && tds[j].timeOffset == old(tds[j].timeOffset)
    {
      assert tds[j] != tds[i];
    }
  }

  /** One step of the loop: `join` extends the fold by one trace. */
  method JoinNext(entire: TimingData, td: TimingData, ghost done: seq<seq<TimingDataItem>>)
    requires entire != td
    requires entire.items == Joined(done) && entire.timeOffset == Offset(done)
    modifies entire, td
    ensures entire.items == Joined(done + [old(td.items)]) && entire.timeOffset == Offset(done + [old(td.items)])
    ensures td.items == Moved(old(td.items), Offset(done), Joined(done)) && td.timeOffset == old(td.timeOffset)
  {
    JoinedSnoc(done, td.items);
    entire.Join(td);
  }

  /** The project trace of `run`: a fresh trace with no target, platform or arch, with
      every trace joined onto it. */
  method ProjectTrace(tds: seq<TimingData>, outputPath: string) returns (entire: TimingData)
    requires forall i, j :: 0 <= i < j < |tds| ==> tds[i] != tds[j]
    modifies tds
    ensures fresh(entire)
    ensures entire.path == Paths.Join(outputPath, TraceFileName)
    ensures entire.target == "" && entire.platform == "" && entire.arch == ""
    ensures entire.items == Joined(old(EventsOf(tds))) && entire.timeOffset == Offset(old(EventsOf(tds)))
    ensures forall i :: 0 <= i < |tds| ==>
      tds[i].items == MovedAt(old(EventsOf(tds)), i)
    ensures forall i :: 0 <= i < |tds| ==> tds[i].timeOffset == old(tds[i].timeOffset)
  {
    ghost var srcs := EventsOf(tds);
    entire := new TimingData(Paths.Join(outputPath, TraceFileName), "", "", "");
    assert EventsOf(tds) == srcs;
    JoinAll(entire, tds);
  }

  /** `run`. The project trace is written only when `serialize` is set, and an unwritable
      trace ends the run; the summary is then added once. */
  method Run(tds: seq<TimingData>, outputPath: string, serialize: bool, shortener: PathShortener,
             encode: Json -> string, writeSucceeds: bool, comparison: Comparison)
    returns (r: Result<()>, entire: TimingData, written: Option<string>)
    requires forall i, j :: 0 <= i < j < |tds| ==> tds[i] != tds[j]
    modifies tds, comparison
    ensures fresh(entire)
    ensures entire.path == Paths.Join(outputPath, TraceFileName)
    ensures entire.target == "" && entire.platform == "" && entire.arch == ""
    ensures entire.items == Joined(old(EventsOf(tds))) && entire.timeOffset == Offset(old(EventsOf(tds)))
    ensures forall i :: 0 <= i < |tds| ==>
      tds[i].items == MovedAt(old(EventsOf(tds)), i)
    ensures forall i :: 0 <= i < |tds| ==> tds[i].timeOffset == old(tds[i].timeOffset)
    ensures !serialize ==> written == None
    ensures serialize && entire.items != [] ==>
      written == Some(ApplyReplacements(encode(ObjectGraph(entire.items)), shortener.ShortenedPaths()))
    ensures r.Fatal? <==>
      (serialize && entire.items != [] && !writeSucceeds) || ComparisonKey in old(comparison.dict)
    ensures r.Ok? ==> comparison.dict == old(comparison.dict)[ComparisonKey := Entry.Summary(Summary(entire.timeOffset, |tds|))]
    ensures r.Fatal? ==> comparison.dict == old(comparison.dict)
  {
    entire := ProjectTrace(tds, outputPath);
    r, written := Finish(entire, |tds|, serialize, shortener, encode, writeSucceeds, comparison);
  }

  /** The rest of `run` once the traces are joined: write the project trace when asked,
      then add the summary. */
  method Finish(entire: TimingData, count: nat, serialize: bool, shortener: PathShortener,
                encode: Json -> string, writeSucceeds: bool, comparison: Comparison)
    returns (r: Result<()>, written: Option<string>)
    modifies comparison
    ensures !serialize ==> written == None
    ensures serialize && entire.items != [] ==>
      written == Some(ApplyReplacements(encode(ObjectGraph(entire.items)), shortener.ShortenedPaths()))
    ensures r.Fatal? <==>
      (serialize && entire.items != [] && !writeSucceeds) || ComparisonKey in old(comparison.dict)
    ensures r.Ok? ==> comparison.dict == old(comparison.dict)[ComparisonKey := Entry.Summary(Summary(entire.timeOffset, count))]
    ensures r.Fatal? ==> comparison.dict == old(comparison.dict)
  {
    written := None;
    if serialize {
      var ok;
      ok, written := entire.Write(shortener, encode, writeSucceeds);
      if !ok {
        return Fatal("Could not serialize trace"), written;
      }
    }
    var summary := Summary(entire.timeOffset, count);
    r := comparison.AddSummary(ComparisonKey, summary);
  }
}
