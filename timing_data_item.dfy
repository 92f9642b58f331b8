/** One event of a clang `-ftime-trace` file: the decoded JSON object it came from, the
    integer fields read out of it, and the file, target, architecture and platform of the
    trace it belongs to. */
module TimingDataItem {
  import opened Wrappers
  import opened Json
  import opened Strings

  datatype TimingDataItem = TimingDataItem(
    filename: string,
    target: string,
    arch: string,
    platform: string,
    dict: map<string, Json>,
    time: int,
    pid: int,
    tid: int,
    duration: int)

  const KeyTimestamp := "ts"
  const KeyDuration := "dur"
  const KeyProcess := "pid"
  const KeyThread := "tid"
  const KeyName := "name"

  /** Python's `int(v)` applied to a decoded JSON value; `None` is the exception it raises. */
  function IntOf(v: Json): Option<int> {
    match v
    case JBool(b) => Some(if b then 1 else 0)
    case JNum(n) => Some(Trunc(n))
    case JStr(s) => ParseInt(s)
    case _ => None
  }

  /** `_read_int_from_dict`: a missing key or a value `int()` rejects ends the run. */
  function ReadInt(d: map<string, Json>, key: string): (r: Result<int>)
    ensures r.Ok? <==> key in d && IntOf(d[key]).Some?
    ensures r.Ok? ==> r.value == IntOf(d[key]).value
  {
    if key !in d then Fatal("Could not find key " + key + " in item")
    else match IntOf(d[key])
      case None => Fatal(key + " string was invalid")
      case Some(n) => Ok(n)
  }

  /** `parse`: `ts`, `pid` and `tid` are required, `dur` is read only when present. When
      it does not end the run, `parse` returns True; `Ok` stands for that. */
  function ParseItem(filename: string, target: string, arch: string, platform: string,
                     d: map<string, Json>): (r: Result<TimingDataItem>)
    ensures r.Ok? <==>
      (forall k :: k in {KeyTimestamp, KeyProcess, KeyThread} ==> k in d && IntOf(d[k]).Some?) &&
      (KeyDuration in d ==> IntOf(d[KeyDuration]).Some?)
    ensures r.Ok? ==>
      r.value.filename == filename && r.value.target == target && r.value.arch == arch &&
      r.value.platform == platform && r.value.dict == d &&
      r.value.time == IntOf(d[KeyTimestamp]).value &&
      r.value.pid == IntOf(d[KeyProcess]).value &&
      r.value.tid == IntOf(d[KeyThread]).value &&
      r.value.duration == (if KeyDuration in d then IntOf(d[KeyDuration]).value else 0)
    ensures r.Ok? ==> DurationRead(r.value)
  {
    var time :- ReadInt(d, KeyTimestamp);
    var pid :- ReadInt(d, KeyProcess);
    var tid :- ReadInt(d, KeyThread);
    var duration :- if KeyDuration in d then ReadInt(d, KeyDuration) else Ok(0);
    Ok(TimingDataItem(filename, target, arch, platform, d, time, pid, tid, duration))
  }

  /** The duration field agrees with the `dur` entry of the dictionary (0 when absent).
      `parse` establishes it, and nothing the program does later changes either side. */
  predicate DurationRead(e: TimingDataItem) {
    if KeyDuration in e.dict then IntOf(e.dict[KeyDuration]) == Some(e.duration)
    else e.duration == 0
  }

  /** `get_name`: the `name` entry, or "" when absent. */
  function Name(e: TimingDataItem): string {
    if KeyName in e.dict && e.dict[KeyName].JStr? then e.dict[KeyName].s else ""
  }

  /** `get_detail`: the `detail` entry of the `args` object, or "" when either is absent. */
  function Detail(e: TimingDataItem): string {
    if "args" in e.dict && e.dict["args"].JObj? && "detail" in e.dict["args"].fields
       && e.dict["args"].fields["detail"].JStr?
    then e.dict["args"].fields["detail"].s
    else ""
  }

  predicate IsTotal(e: TimingDataItem) {
    StartsWith(Name(e), "Total ")
  }

  /** The per-file sentinel event whose end is the length of the whole compilation. */
  predicate IsTotalExecuteCompiler(e: TimingDataItem) {
    Name(e) == "Total ExecuteCompiler"
  }

  predicate IsCodegenFunction(e: TimingDataItem) {
    Name(e) == "CodeGen Function"
  }

  predicate IsSource(e: TimingDataItem) {
    Name(e) == "Source"
  }

  predicate IsExecuteCompiler(e: TimingDataItem) {
    Name(e) == "ExecuteCompiler"
  }

  /** `get_short_total_name`: the name without its `Total ` prefix, "" for other events. */
  function ShortTotalName(e: TimingDataItem): (r: string)
    ensures IsTotal(e) ==> "Total " + r == Name(e)
    ensures !IsTotal(e) ==> r == ""
    ensures IsTotalExecuteCompiler(e) ==> r == "ExecuteCompiler"
  {
    if !IsTotal(e) then "" else Name(e)[|"Total "|..]
  }

  /** `get_total_time`: the end of the event. */
  function TotalTime(e: TimingDataItem): int {
    e.time + e.duration
  }

  /** What `json_dict` returns: a copy of the original object, with an `ExecuteCompiler`
      event renamed after its file, and `ts`, `pid` and `tid` set from the current fields. */
  function SerializedItem(e: TimingDataItem): map<string, Json> {
    var renamed :=
      if IsExecuteCompiler(e) then e.dict[KeyName := JStr("ExecuteCompiler - " + e.filename)]
      else e.dict;
    renamed[KeyTimestamp := JNum(e.time as real)]
           [KeyProcess := JNum(e.pid as real)]
           [KeyThread := JNum(e.tid as real)]
  }

  /** `json_dict`, with its copying loop. */
  method JsonDict(e: TimingDataItem) returns (d: map<string, Json>)
    ensures d == SerializedItem(e)
  {
    d := map[];
    var rest := e.dict.Keys;
    while rest != {}
      invariant rest <= e.dict.Keys
      invariant d.Keys == e.dict.Keys - rest
      invariant forall k :: k in d ==> d[k] == e.dict[k]
      decreases rest
    {
      var k :| k in rest;
      d := d[k := e.dict[k]];
      rest := rest - {k};
    }
    assert d == e.dict;
    if IsExecuteCompiler(e) {
      d := d[KeyName := JStr("ExecuteCompiler - " + e.filename)];
    }
    d := d[KeyTimestamp := JNum(e.time as real)];
    d := d[KeyProcess := JNum(e.pid as real)];
    d := d[KeyThread := JNum(e.tid as real)];
  }

  /** Serialising keeps every original key and its value, `dur` included, except the three
      rewritten fields and the name of an `ExecuteCompiler` event; other names are kept. */
  lemma SerializedKeeps(e: TimingDataItem)
    ensures SerializedItem(e).Keys == e.dict.Keys + {KeyTimestamp, KeyProcess, KeyThread}
    ensures forall k :: k in e.dict && k !in {KeyTimestamp, KeyProcess, KeyThread, KeyName} ==>
      SerializedItem(e)[k] == e.dict[k]
    ensures !IsExecuteCompiler(e) && KeyName in e.dict ==> SerializedItem(e)[KeyName] == e.dict[KeyName]
    ensures IsExecuteCompiler(e) ==>
      SerializedItem(e)[KeyName] == JStr("ExecuteCompiler - " + e.filename)
    ensures SerializedItem(e)[KeyTimestamp] == JNum(e.time as real)
    ensures SerializedItem(e)[KeyProcess] == JNum(e.pid as real)
    ensures SerializedItem(e)[KeyThread] == JNum(e.tid as real)
  {
  }

  lemma IntOfWhole(n: int)
    ensures IntOf(JNum(n as real)) == Some(n)
  {
  }

  /** Reading a serialised event back gives the same time, pid, tid and duration; the name
      of an `ExecuteCompiler` event now carries its file, so it is no longer an
      `ExecuteCompiler` event, and every other name is read back unchanged. */
  lemma SerializedRoundTrip(e: TimingDataItem)
    requires DurationRead(e)
    ensures var r := ParseItem(e.filename, e.target, e.arch, e.platform, SerializedItem(e));
      r.Ok? && r.value.time == e.time && r.value.pid == e.pid && r.value.tid == e.tid &&
      r.value.duration == e.duration && !IsExecuteCompiler(r.value)
    ensures var r := ParseItem(e.filename, e.target, e.arch, e.platform, SerializedItem(e));
      r.Ok? && Name(r.value) == if IsExecuteCompiler(e) then "ExecuteCompiler - " + e.filename else Name(e)
  {
    var d := SerializedItem(e);
    SerializedKeeps(e);
    IntOfWhole(e.time);
    IntOfWhole(e.pid);
    IntOfWhole(e.tid);
    var r := ParseItem(e.filename, e.target, e.arch, e.platform, d);
    assert r.Ok?;
    if IsExecuteCompiler(e) {
      assert |Name(r.value)| > |"ExecuteCompiler"|;
    }
  }
}
