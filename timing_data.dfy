/** The whole `-ftime-trace` profile of one compiled source file: where it sits in the
    build folder, its events, and the time offset used when profiles are stitched together. */
module TimingData {
  import opened Wrappers
  import opened Json
  import opened Strings
  import opened Paths
  import opened TimingDataItem
  import opened PathShortener

  // ---- Classifying a trace path ----

  /** The four parents `target_and_platform_and_arch_from_path` peels off a path: the name of
      the grand-grandparent directory (the target folder) and what lies above it. */
  function Above(path: string): string {
    Split(Split(Split(Split(path).0).0).0).0
  }

  function TargetFolder(path: string): string {
    Split(Split(Split(Split(path).0).0).0).1
  }

  function ArchFolder(path: string): string {
    Split(Split(path).0).1
  }

  const BuildSuffix := ".build"
  const SharedPch := "SharedPrecompiledHeaders"

  /** `target_and_platform_and_arch_from_path`: `(target, platform, arch)` for a trace at
      `.../Platform/Target.build/<variant>/Arch/file`, dashes for the shared precompiled
      header folder, and `None` for anything else. */
  function Classify(path: string): (r: Option<(string, string, string)>)
    ensures r.None? <==> !EndsWith(TargetFolder(path), BuildSuffix) && TargetFolder(path) != SharedPch
    ensures r.Some? && EndsWith(TargetFolder(path), BuildSuffix) ==>
      r.value.0 + BuildSuffix == TargetFolder(path)
  {
    var target := TargetFolder(path);
    if EndsWith(target, BuildSuffix) then
      assert target[..|target| - |BuildSuffix|] + BuildSuffix == target;
      Some((target[..|target| - |BuildSuffix|], Split(Above(path)).1, ArchFolder(path)))
    else if target == SharedPch then Some((target, "-", "-"))
    else None
  }

  predicate Component(c: string) {
    c != [] && NoChar(c, '/')
  }

  lemma SplitsOfTrace(pre: string, t: string, x: string, a: string, f: string)
    requires pre != [] && pre[|pre| - 1] != '/'
    requires Component(t) && Component(x) && Component(a) && NoChar(f, '/')
    ensures var path := pre + "/" + t + "/" + x + "/" + a + "/" + f;
      TargetFolder(path) == t && Above(path) == pre && ArchFolder(path) == a
  {
    var q3 := pre + "/" + t;
    var q2 := q3 + "/" + x;
    var q1 := q2 + "/" + a;
    SplitComponent(q1, f);
    SplitComponent(q2, a);
    SplitComponent(q3, x);
    SplitComponent(pre, t);
  }

  /** A trace under `<platform>/<target>.build/<variant>/<arch>/` names that target,
      platform and architecture. */
  lemma ClassifyBuildPath(pre: string, p: string, t: string, x: string, a: string, f: string)
    requires pre == [] || pre[|pre| - 1] == '/'
    requires Component(p) && NoChar(t, '/') && Component(x) && Component(a) && NoChar(f, '/')
    ensures Classify(pre + p + "/" + t + ".build/" + x + "/" + a + "/" + f) == Some((t, p, a))
  {
    var tb := t + BuildSuffix;
    var path := pre + p + "/" + t + ".build/" + x + "/" + a + "/" + f;
    assert path == (pre + p) + "/" + tb + "/" + x + "/" + a + "/" + f;
    SplitsOfTrace(pre + p, tb, x, a, f);
    SplitLastName(pre, p);
    assert EndsWith(tb, BuildSuffix);
    assert tb[..|tb| - |BuildSuffix|] == t;
  }

  /** A trace under `SharedPrecompiledHeaders/<variant>/<arch>/` has no target, platform or
      architecture of its own. */
  lemma ClassifySharedPch(pre: string, p: string, x: string, a: string, f: string)
    requires pre == [] || pre[|pre| - 1] == '/'
    requires Component(p) && Component(x) && Component(a) && NoChar(f, '/')
    ensures Classify(pre + p + "/SharedPrecompiledHeaders/" + x + "/" + a + "/" + f) ==
      Some((SharedPch, "-", "-"))
  {
    var path := pre + p + "/SharedPrecompiledHeaders/" + x + "/" + a + "/" + f;
    assert path == (pre + p) + "/" + SharedPch + "/" + x + "/" + a + "/" + f;
    SplitsOfTrace(pre + p, SharedPch, x, a, f);
  }

  /** Any other name for the target folder rejects the path. */
  lemma ClassifyOther(pre: string, t: string, x: string, a: string, f: string)
    requires pre != [] && pre[|pre| - 1] != '/'
    requires Component(t) && Component(x) && Component(a) && NoChar(f, '/')
    requires !EndsWith(t, ".build") && t != "SharedPrecompiledHeaders"
    ensures Classify(pre + "/" + t + "/" + x + "/" + a + "/" + f) == None
  {
    SplitsOfTrace(pre, t, x, a, f);
  }

  // ---- Reading a trace ----

  const KeyBeginningOfTime := "beginningOfTime"
  const KeyTraceEvents := "traceEvents"

  /** The two-key schema `parse` accepts: both keys and nothing else. */
  predicate SchemaOk(data: map<string, Json>) {
    KeyBeginningOfTime in data && KeyTraceEvents in data && |data.Keys| == 2
  }

  /** What `for item in data["traceEvents"]` iterates over. An empty string or object gives no
      events; a non-empty string or object yields strings, which `parse` rejects; other
      values are not iterable. `None` means the run ends. */
  function EventValues(v: Json): Option<seq<Json>> {
    match v
    case JArr(es) => Some(es)
    case JStr(s) => if s == [] then Some([]) else None
    case JObj(m) => if m == map[] then Some([]) else None
    case _ => None
  }

  /** Parsing a list of event values in order; the first failure ends the run. */
  function ParseAll(fn: string, t: string, a: string, p: string, es: seq<Json>): Result<seq<TimingDataItem>> {
    if es == [] then Ok([])
    else
      var init :- ParseAll(fn, t, a, p, es[..|es| - 1]);
      var last := es[|es| - 1];
      if !last.JObj? then Fatal("trace event is not an object")
      else
        var item :- ParseItem(fn, t, a, p, last.fields);
        Ok(init + [item])
  }

  /** The events come out one per value and in order, and parsing succeeds exactly when
      every value is an object that parses. */
  lemma {:induction false} ParseAllEach(fn: string, t: string, a: string, p: string, es: seq<Json>)
    ensures ParseAll(fn, t, a, p, es).Ok? <==>
      forall i :: 0 <= i < |es| ==> es[i].JObj? && ParseItem(fn, t, a, p, es[i].fields).Ok?
    ensures ParseAll(fn, t, a, p, es).Ok? ==>
      var items := ParseAll(fn, t, a, p, es).value;
      |items| == |es| &&
      forall i :: 0 <= i < |es| ==> Ok(items[i]) == ParseItem(fn, t, a, p, es[i].fields)
  {
    if es != [] {
      var init := es[..|es| - 1];
      var last := es[|es| - 1];
      ParseAllEach(fn, t, a, p, init);
      assert forall i :: 0 <= i < |init| ==> init[i] == es[i];
      var r0 := ParseAll(fn, t, a, p, init);
      if r0.Ok? && last.JObj? {
        var q := ParseItem(fn, t, a, p, last.fields);
        if q.Ok? {
          assert ParseAll(fn, t, a, p, es) == Ok(r0.value + [q.value]);
        } else {
          assert ParseAll(fn, t, a, p, es).Fatal?;
        }
      }
    }
  }

  /** Python's `key in data` on a decoded document: a key of an object, an element of a
      list, a substring of a string. `None` is the `TypeError` a number, a boolean or
      `null` raises. */
  function KeyIn(doc: Json, key: string): (r: Option<bool>)
    ensures r.None? <==> doc.JNum? || doc.JBool? || doc.JNull?
    ensures doc.JObj? ==> r == Some(key in doc.fields)
    ensures doc.JArr? ==> r == Some(exists i | 0 <= i < |doc.elems| :: doc.elems[i] == JStr(key))
  {
    match doc
    case JObj(fields) => Some(key in fields)
    case JArr(es) => Some(JStr(key) in es)
    case JStr(text) => Some(Occurs(text, key))
    case _ => None
  }

  /** The outcome of `parse` given the decoded file: `None` is a file that could not be read
      or decoded. `Ok(None)` is a False return, `Ok(Some(items))` a True return with these
      events appended. The two keys are looked for in order; a document that is not an
      object but holds both of them ends the run at `data.keys()`. */
  function ParseOutcome(fn: string, t: string, a: string, p: string, data: Option<Json>):
    Result<Option<seq<TimingDataItem>>>
  {
    if data.None? then Ok(None)
    else
      var doc := data.value;
      match KeyIn(doc, KeyBeginningOfTime)
      case None => Fatal("the decoded document cannot be searched for keys")
      case Some(false) => Ok(None)
      case Some(true) =>
        if KeyIn(doc, KeyTraceEvents) == Some(false) then Ok(None)
        else if !doc.JObj? then Fatal("the decoded document has no keys")
        else if |doc.fields.Keys| != 2 then Ok(None)
        else match EventValues(doc.fields[KeyTraceEvents])
          case None => Fatal("traceEvents cannot be read as events")
          case Some(es) =>
            var items :- ParseAll(fn, t, a, p, es);
            Ok(Some(items))
  }

  /** A document that is not an object is never accepted: a number, a boolean or `null`
      ends the run, and a list or string ends it exactly when it holds both keys. */
  lemma ParseNonObject(fn: string, t: string, a: string, p: string, doc: Json)
    requires !doc.JObj?
    ensures var o := ParseOutcome(fn, t, a, p, Some(doc));
      o != Ok(None) <==> o.Fatal?
    ensures doc.JNum? || doc.JBool? || doc.JNull? ==> ParseOutcome(fn, t, a, p, Some(doc)).Fatal?
    ensures doc.JArr? ==> (ParseOutcome(fn, t, a, p, Some(doc)).Fatal? <==>
      JStr(KeyBeginningOfTime) in doc.elems && JStr(KeyTraceEvents) in doc.elems)
    ensures doc.JStr? ==> (ParseOutcome(fn, t, a, p, Some(doc)).Fatal? <==>
      Occurs(doc.s, KeyBeginningOfTime) && Occurs(doc.s, KeyTraceEvents))
  {
  }

  /** A file lacking either key, or holding any other key, is rejected without ending the
      run, and a well-formed one is never rejected that way. */
  lemma ParseRejectsSchema(fn: string, t: string, a: string, p: string, d: map<string, Json>)
    ensures ParseOutcome(fn, t, a, p, Some(JObj(d))) == Ok(None) <==> !SchemaOk(d)
    ensures !SchemaOk(d) <==>
      KeyBeginningOfTime !in d || KeyTraceEvents !in d ||
      exists k :: k in d && k != KeyBeginningOfTime && k != KeyTraceEvents
  {
    var two := {KeyBeginningOfTime, KeyTraceEvents};
    assert |two| == 2;
    if KeyBeginningOfTime in d && KeyTraceEvents in d {
      var extra := d.Keys - two;
      assert d.Keys == two + extra;
      assert |d.Keys| == 2 + |extra|;
      if extra != {} {
        var k :| k in extra;
        assert k in d && k != KeyBeginningOfTime && k != KeyTraceEvents;
      }
    }
  }

  // ---- Joining traces ----

  /** The end of the last `Total ExecuteCompiler` event, 0 when there is none. */
  function LastSentinelTotal(s: seq<TimingDataItem>): int {
    if s == [] then 0
    else if IsTotalExecuteCompiler(s[|s| - 1]) then TotalTime(s[|s| - 1])
    else LastSentinelTotal(s[..|s| - 1])
  }

  lemma {:induction false} LastSentinelAt(s: seq<TimingDataItem>, k: int)
    requires 0 <= k < |s| && IsTotalExecuteCompiler(s[k])
    requires forall j :: k < j < |s| ==> !IsTotalExecuteCompiler(s[j])
    ensures LastSentinelTotal(s) == TotalTime(s[k])
  {
    if k < |s| - 1 {
      var init := s[..|s| - 1];
      assert forall j :: k < j < |init| ==> init[j] == s[j];
      LastSentinelAt(init, k);
    }
  }

  lemma {:induction false} NoSentinel(s: seq<TimingDataItem>)
    requires forall j :: 0 <= j < |s| ==> !IsTotalExecuteCompiler(s[j])
    ensures LastSentinelTotal(s) == 0
  {
    if s != [] {
      var init := s[..|s| - 1];
      assert forall j :: 0 <= j < |init| ==> init[j] == s[j];
      NoSentinel(init);
    }
  }

  /** Event `e` moved onto the accumulator's timeline and its process and thread. */
  function Shift(e: TimingDataItem, offset: int, anchor: TimingDataItem): TimingDataItem {
    e.(time := e.time + offset, pid := anchor.pid, tid := anchor.tid)
  }

  /** The events `join` appends: `src` in order, shifted by `offset`, all carrying the pid
      and tid of the accumulator's first event, or of the source's own first event when the
      accumulator is empty. */
  function Moved(src: seq<TimingDataItem>, offset: int, acc: seq<TimingDataItem>): (r: seq<TimingDataItem>)
    ensures |r| == |src|
  {
    if src == [] then []
    else
      var anchor := if acc != [] then acc[0] else src[0];
      seq(|src|, i requires 0 <= i < |src| => Shift(src[i], offset, anchor))
  }

  /** Each moved event keeps everything but its timestamp, pid and tid; the timestamp is
      shifted by the offset; pid and tid are one pair for all of them, taken from the
      accumulator's first event, or from the source's first when the accumulator is empty. */
  lemma MovedEach(src: seq<TimingDataItem>, offset: int, acc: seq<TimingDataItem>)
    ensures var r := Moved(src, offset, acc);
      forall i :: 0 <= i < |src| ==>
        r[i] == src[i].(time := src[i].time + offset,
                        pid := (if acc != [] then acc[0] else src[0]).pid,
                        tid := (if acc != [] then acc[0] else src[0]).tid)
    ensures forall i :: 0 <= i < |src| ==> Name(Moved(src, offset, acc)[i]) == Name(src[i])
    ensures forall i :: 0 <= i < |src| ==> DurationRead(src[i]) ==> DurationRead(Moved(src, offset, acc)[i])
  {
  }

  // ---- The total time of a trace ----

  /** The loop of `calculate_total_time` over `s`: the end of the sentinel event, fatal when
      a sentinel follows one whose end was not 0. */
  function Scan(s: seq<TimingDataItem>): Result<int> {
    if s == [] then Ok(0)
    else
      var cur :- Scan(s[..|s| - 1]);
      var last := s[|s| - 1];
      if !IsTotalExecuteCompiler(last) then Ok(cur)
      else if cur != 0 then Fatal("found multiple execute compiler items")
      else Ok(TotalTime(last))
  }

  /** `calculate_total_time`: the cached offset, or the scan when no offset is cached. */
  function TotalTimeOutcome(items: seq<TimingDataItem>, offset: int): Result<int> {
    if offset != 0 then Ok(offset) else Scan(items)
  }

  /** Caching the total does not change it: asking again, with the cached offset, gives the
      same answer. */
  lemma TotalTimeCached(items: seq<TimingDataItem>, offset: int)
    ensures var r := TotalTimeOutcome(items, offset);
      r.Ok? ==> TotalTimeOutcome(items, r.value) == r
  {
  }

  /** A trace without sentinel has total time 0. */
  lemma {:induction false} ScanNoSentinel(s: seq<TimingDataItem>)
    requires forall j :: 0 <= j < |s| ==> !IsTotalExecuteCompiler(s[j])
    ensures Scan(s) == Ok(0)
  {
    if s != [] {
      var init := s[..|s| - 1];
      assert forall j :: 0 <= j < |init| ==> init[j] == s[j];
      ScanNoSentinel(init);
    }
  }

  /** A trace with exactly one sentinel has that event's end as its total time. */
  lemma {:induction false} ScanOneSentinel(s: seq<TimingDataItem>, k: int)
    requires 0 <= k < |s| && IsTotalExecuteCompiler(s[k])
    requires forall j :: 0 <= j < |s| && j != k ==> !IsTotalExecuteCompiler(s[j])
    ensures Scan(s) == Ok(TotalTime(s[k]))
  {
    var init := s[..|s| - 1];
    assert forall j :: 0 <= j < |init| ==> init[j] == s[j];
    if k == |s| - 1 {
      ScanNoSentinel(init);
    } else {
      ScanOneSentinel(init, k);
    }
  }

  /** Once a sentinel with a nonzero end has been seen, the scan ends the run or carries a
      nonzero value. */
  lemma {:induction false} ScanAfterNonzero(s: seq<TimingDataItem>, j: int)
    requires 0 <= j < |s| && IsTotalExecuteCompiler(s[j]) && TotalTime(s[j]) != 0
    ensures Scan(s).Fatal? || Scan(s).value != 0
  {
    var init := s[..|s| - 1];
    assert forall i :: 0 <= i < |init| ==> init[i] == s[i];
    if j < |s| - 1 {
      ScanAfterNonzero(init, j);
    }
  }

  /** A second sentinel after one with a nonzero end ends the run. */
  lemma {:induction false} ScanTwoSentinels(s: seq<TimingDataItem>, j: int, k: int)
    requires 0 <= j < k < |s|
    requires IsTotalExecuteCompiler(s[j]) && TotalTime(s[j]) != 0
    requires IsTotalExecuteCompiler(s[k])
    ensures Scan(s).Fatal?
  {
    var init := s[..|s| - 1];
    assert init[j] == s[j];
    if k < |s| - 1 {
      assert init[k] == s[k];
      ScanTwoSentinels(init, j, k);
    } else {
      ScanAfterNonzero(init, j);
    }
  }

  /** A run that ends within a prefix ends on the whole trace. */
  lemma {:induction false} ScanFatalStays(s: seq<TimingDataItem>, n: int)
    requires 0 <= n <= |s|
    ensures Scan(s[..n]).Fatal? ==> Scan(s) == Scan(s[..n])
    decreases |s| - n
  {
    if n < |s| {
      ScanFatalStays(s, n + 1);
      assert s[..n + 1][..n] == s[..n];
    } else {
      assert s[..n] == s;
    }
  }

  // ---- Writing ----

  /** `_shorten_paths_if_needed`'s loop: each replacement applied in turn, in dictionary order. */
  function ApplyReplacements(s: string, ps: Pairs): string
    decreases ps
  {
    if ps == [] then s else ApplyReplacements(ReplaceAll(s, ps[0].0, ps[0].1), ps[1..])
  }

  /** Applying two dictionaries' replacements is applying the first and then the second. */
  lemma {:induction false} ApplyReplacementsAppend(s: string, p1: Pairs, p2: Pairs)
    ensures ApplyReplacements(s, p1 + p2) == ApplyReplacements(ApplyReplacements(s, p1), p2)
    decreases p1
  {
    if p1 != [] {
      assert (p1 + p2)[1..] == p1[1..] + p2;
      ApplyReplacementsAppend(ReplaceAll(s, p1[0].0, p1[0].1), p1[1..], p2);
    } else {
      assert p1 + p2 == p2;
    }
  }

  /** Replacements that map a path to itself leave the text unchanged. */
  lemma {:induction false} ApplyIdentityReplacements(s: string, ps: Pairs)
    requires forall i :: 0 <= i < |ps| ==> ps[i].0 == ps[i].1
    ensures ApplyReplacements(s, ps) == s
    decreases ps
  {
    if ps != [] {
      ReplaceBySelf(s, ps[0].0);
      ApplyIdentityReplacements(s, ps[1..]);
    }
  }

  /** The object `write` serialises: only the `traceEvents` key, holding every event's
      `json_dict` in order. */
  function ObjectGraph(items: seq<TimingDataItem>): Json {
    JObj(map[KeyTraceEvents := JArr(seq(|items|, i requires 0 <= i < |items| =>
      JObj(SerializedItem(items[i]))))])
  }

  /** Reading the serialised events back gives the same events' times, processes, threads and
      durations; the file as a whole lacks `beginningOfTime`, so `parse` would reject it. */
  lemma ObjectGraphRoundTrip(items: seq<TimingDataItem>, fn: string, t: string, a: string, p: string)
    requires forall i :: 0 <= i < |items| ==> DurationRead(items[i])
    requires forall i :: 0 <= i < |items| ==>
      items[i].filename == fn && items[i].target == t && items[i].arch == a && items[i].platform == p
    ensures var es := ObjectGraph(items).fields[KeyTraceEvents].elems;
      var r := ParseAll(fn, t, a, p, es);
      r.Ok? && |r.value| == |items| &&
      forall i :: 0 <= i < |items| ==>
        r.value[i].time == items[i].time && r.value[i].pid == items[i].pid &&
        r.value[i].tid == items[i].tid && r.value[i].duration == items[i].duration &&
        Name(r.value[i]) == if IsExecuteCompiler(items[i]) then "ExecuteCompiler - " + fn else Name(items[i])
    ensures !SchemaOk(ObjectGraph(items).fields)
  {
    var es := ObjectGraph(items).fields[KeyTraceEvents].elems;
    forall i | 0 <= i < |items|
      ensures es[i].JObj? && ParseItem(fn, t, a, p, es[i].fields).Ok?
      ensures var q := ParseItem(fn, t, a, p, es[i].fields).value;
        q.time == items[i].time && q.pid == items[i].pid &&
        q.tid == items[i].tid && q.duration == items[i].duration &&
        Name(q) == if IsExecuteCompiler(items[i]) then "ExecuteCompiler - " + fn else Name(items[i])
    {
      SerializedRoundTrip(items[i]);
    }
    ParseAllEach(fn, t, a, p, es);
  }

  /** The loop of `join`: each event of `src` moved by `offset` onto the process and thread
      of the accumulator's first event (or of the first event moved), and the end of the last
      sentinel seen. */
  method MoveEvents(src: seq<TimingDataItem>, offset: int, acc: seq<TimingDataItem>)
    returns (out: seq<TimingDataItem>, lastTime: int)
    ensures out == Moved(src, offset, acc)
    ensures lastTime == LastSentinelTotal(src)
  {
    var pid: Option<int> := if |acc| > 0 then Some(acc[0].pid) else None;
    var tid: Option<int> := if |acc| > 0 then Some(acc[0].tid) else None;
    ghost var moved := Moved(src, offset, acc);
    out := [];
    lastTime := 0;
    for i := 0 to |src|
      invariant lastTime == LastSentinelTotal(src[..i])
      invariant out == moved[..i]
      invariant i == 0 ==> pid == (if acc != [] then Some(acc[0].pid) else None)
      invariant i == 0 ==> tid == (if acc != [] then Some(acc[0].tid) else None)
      invariant i > 0 ==> pid == Some(moved[0].pid) && tid == Some(moved[0].tid)
    {
      assert src[..i + 1][..i] == src[..i];
      var item := src[i];
      assert LastSentinelTotal(src[..i + 1]) ==
        if IsTotalExecuteCompiler(item) then TotalTime(item) else LastSentinelTotal(src[..i]);
      if IsTotalExecuteCompiler(item) {
        lastTime := TotalTime(item);
      }
      var newPid := item.pid;
      if pid.None? {
        pid := Some(item.pid);
      } else {
        newPid := pid.value;
      }
      var newTid := item.tid;
      if tid.None? {
        tid := Some(item.tid);
      } else {
        newTid := tid.value;
      }
      var shifted := item.(time := item.time + offset, pid := newPid, tid := newTid);
      assert shifted == moved[i] by {
        assert moved[i] == Shift(src[i], offset, if acc != [] then acc[0] else src[0]);
      }
      assert moved[..i + 1] == moved[..i] + [moved[i]];
      out := out + [shifted];
    }
    assert src[..|src|] == src;
  }

  /** The event loop of `parse`: each value read as an event, in order; the first value that
      is not an object or not an event ends the run. */
  method ParseEvents(fn: string, t: string, a: string, p: string, es: seq<Json>)
    returns (r: Result<seq<TimingDataItem>>)
    ensures r == ParseAll(fn, t, a, p, es)
  {
    var parsed := [];
    for i := 0 to |es|
      invariant ParseAll(fn, t, a, p, es[..i]) == Ok(parsed)
    {
      assert es[..i + 1][..i] == es[..i];
      var v := es[i];
      if !v.JObj? {
        ParseAllFatalStays(fn, t, a, p, es, i + 1);
        return Fatal("trace event is not an object");
      }
      var item := ParseItem(fn, t, a, p, v.fields);
      if item.Fatal? {
        ParseAllFatalStays(fn, t, a, p, es, i + 1);
        return Fatal(item.message);
      }
      parsed := parsed + [item.value];
    }
    assert es[..|es|] == es;
    return Ok(parsed);
  }

  // ---- The trace container ----

  class TimingData {
    const path: string
    const target: string
    const platform: string
    const arch: string
    var items: seq<TimingDataItem>
    /** `_time_offset`: where the next joined trace starts, and the cached total time. */
    var timeOffset: int

    constructor (path: string, target: string, platform: string, arch: string)
      ensures this.path == path && this.target == target
      ensures this.platform == platform && this.arch == arch
      ensures items == [] && timeOffset == 0
    {
      this.path := path;
      this.target := target;
      this.platform := platform;
      this.arch := arch;
      items := [];
      timeOffset := 0;
    }

    /** `get_name`. */
    function Name(): (r: string)
      ensures NoChar(r, '/')
    {
      Basename(path)
    }

    /** `parse`, given the decoded file (`None` when it could not be read or decoded). */
    method Parse(data: Option<Json>) returns (r: Result<bool>)
      modifies this
      ensures var o := ParseOutcome(Basename(path), target, arch, platform, data);
        (o.Fatal? ==> r == Fatal(o.message)) &&
        (o.Ok? ==> r == Ok(o.value.Some?) &&
                   items == old(items) + (if o.value.Some? then o.value.value else []))
      ensures timeOffset == old(timeOffset)
    {
      if data.None? {
        return Ok(false);
      }
      var doc := data.value;
      ghost var o := ParseOutcome(Basename(path), target, arch, platform, data);
      var keys := [KeyBeginningOfTime, KeyTraceEvents];
      for i := 0 to 2
        invariant forall j :: 0 <= j < i ==> KeyIn(doc, keys[j]) == Some(true)
      {
        var found := KeyIn(doc, keys[i]);
        if found.None? {
          assert o == Fatal("the decoded document cannot be searched for keys");
          return Fatal("the decoded document cannot be searched for keys");
        }
        if !found.value {
          assert o == Ok(None);
          return Ok(false);
        }
      }
      assert KeyIn(doc, keys[0]) == Some(true) && KeyIn(doc, keys[1]) == Some(true);
      if !doc.JObj? {
        return Fatal("the decoded document has no keys");
      }
      var d := doc.fields;
      if |d.Keys| != 2 {
        return Ok(false);
      }
      var name := Basename(path);
      var values := EventValues(d[KeyTraceEvents]);
      if values.None? {
        return Fatal("traceEvents cannot be read as events");
      }
      var parsed := ParseEvents(name, target, arch, platform, values.value);
      if parsed.Fatal? {
        return Fatal(parsed.message);
      }
      items := items + parsed.value;
      return Ok(true);
    }

    /** `join`: appends `other`'s events, moved onto this trace's timeline, and advances the
        offset by the end of `other`'s last sentinel. The moved events are the same objects
        in both traces, so `other` sees them moved too. */
    method Join(other: TimingData)
      requires other != this
      modifies this, other
      ensures other.items == Moved(old(other.items), old(timeOffset), old(items))
      ensures items == old(items) + other.items
      ensures timeOffset == old(timeOffset) + LastSentinelTotal(old(other.items))
      ensures other.timeOffset == old(other.timeOffset)
    {
      var moved, lastTime := MoveEvents(other.items, timeOffset, items);
      other.items := moved;
      items := items + moved;
      timeOffset := timeOffset + lastTime;
    }

    /** `calculate_total_time`: scans for the sentinel only while no offset is cached, and
        caches what it finds. */
    method CalculateTotalTime() returns (r: Result<int>)
      modifies this
      ensures r == TotalTimeOutcome(old(items), old(timeOffset))
      ensures items == old(items)
      ensures r.Ok? ==> timeOffset == r.value
    {
      if timeOffset == 0 {
        var i := 0;
        while i < |items|
          invariant 0 <= i <= |items|
          invariant items == old(items)
          invariant Scan(items[..i]) == Ok(timeOffset)
        {
          assert items[..i + 1][..i] == items[..i];
          var item := items[i];
          if IsTotalExecuteCompiler(item) {
            if timeOffset != 0 {
              ScanFatalStays(items, i + 1);
              return Fatal("found multiple execute compiler items");
            }
            timeOffset := TotalTime(item);
          }
          i := i + 1;
        }
        assert items[..|items|] == items;
      }
      return Ok(timeOffset);
    }

    /** `_shorten_paths_if_needed`. */
    method ShortenPathsIfNeeded(text: string, shortener: PathShortener) returns (r: string)
      ensures r == ApplyReplacements(text, shortener.ShortenedPaths())
    {
      var pairs := shortener.ShortenedPaths();
      r := text;
      var i := 0;
      while i < |pairs|
        invariant 0 <= i <= |pairs|
        invariant ApplyReplacements(r, pairs[i..]) == ApplyReplacements(text, pairs)
      {
        assert pairs[i..][1..] == pairs[i + 1..];
        var (k, v) := pairs[i];
        r := ReplaceAll(r, k, v);
        i := i + 1;
      }
    }

    /** The object-graph loop of `write`: `None` when there are no events. */
    method BuildObjectGraph() returns (g: Option<Json>)
      ensures items == [] ==> g == None
      ensures items != [] ==> g == Some(ObjectGraph(items))
    {
      if |items| == 0 {
        return None;
      }
      var dicts: seq<Json> := [];
      for i := 0 to |items|
        invariant |dicts| == i
        invariant forall j :: 0 <= j < i ==> dicts[j] == JObj(SerializedItem(items[j]))
      {
        var d := JsonDict(items[i]);
        dicts := dicts + [JObj(d)];
      }
      assert dicts == ObjectGraph(items).fields[KeyTraceEvents].elems;
      g := Some(JObj(map[KeyTraceEvents := JArr(dicts)]));
    }

    /** `write`: nothing is written for an empty trace, which counts as success; otherwise
        the encoded graph, with known paths shortened, is what the file receives, and the
        result says whether writing it succeeded. */
    method Write(shortener: PathShortener, encode: Json -> string, writeSucceeds: bool)
      returns (ok: bool, written: Option<string>)
      ensures items == [] ==> ok && written == None
      ensures items != [] ==>
        ok == writeSucceeds &&
        written == Some(ApplyReplacements(encode(ObjectGraph(items)), shortener.ShortenedPaths()))
    {
      var g := BuildObjectGraph();
      if g.None? {
        return true, None;
      }
      var text := encode(g.value);
      text := ShortenPathsIfNeeded(text, shortener);
      return writeSucceeds, Some(text);
    }
  }

  lemma {:induction false} ParseAllFatalStays(fn: string, t: string, a: string, p: string, es: seq<Json>, n: int)
    requires 0 <= n <= |es|
    ensures ParseAll(fn, t, a, p, es[..n]).Fatal? ==> ParseAll(fn, t, a, p, es) == ParseAll(fn, t, a, p, es[..n])
    decreases |es| - n
  {
    if n < |es| {
      ParseAllFatalStays(fn, t, a, p, es, n + 1);
      assert es[..n + 1][..n] == es[..n];
    } else {
      assert es[..n] == es;
    }
  }
}
