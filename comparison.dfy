/** The run-over-run comparison: a store of per-tool summaries for one analysis run, and the
    rows that compare a summary with the one saved by an earlier run. Values are reals:
    the digits printed for them are not modelled, only the unit band, its suffix and the
    number of decimal places. */
module Comparison {
  import opened Wrappers
  import opened Strings

  datatype OutputType = Number | TimeMilliseconds | TimeCpuSeconds | FileSize

  /** How `value_to_string` renders a value: a dash, `str(v)` with a suffix, `v` with a fixed
      number of decimal places and a suffix, or `%d` of `v` with a suffix. */
  datatype Shown =
    | Dash
    | Plain(v: real, suffix: string)
    | Fixed(x: real, places: nat, suffix: string)
    | Whole(n: int, suffix: string)

  /** `_filesize_to_shortened_string`: two places below 10, one below 100, none above. */
  function Shortened(x: real, unit: string): (r: Shown)
    ensures r.Fixed? <==> x < 100.0
    ensures r.Fixed? ==> r.x == x && r.places == (if x < 10.0 then 2 else 1)
    ensures r.Whole? ==> r.n == Trunc(x)
    ensures !r.Dash? && r.suffix == " " + unit
  {
    if x < 10.0 then Fixed(x, 2, " " + unit)
    else if x < 100.0 then Fixed(x, 1, " " + unit)
    else Whole(Trunc(x), " " + unit)
  }

  const KB: real := 1024.0
  const MB: real := 1024.0 * 1024.0
  const GB: real := 1024.0 * 1024.0 * 1024.0

  /** `value_to_string`. */
  function ValueToString(kind: OutputType, v: real): Shown {
    if v == 0.0 then Dash
    else match kind
      case Number => Plain(v, "")
      case TimeCpuSeconds => Fixed(v, 2, " sec")
      case TimeMilliseconds => if v < 1000.0 then Plain(v, "ms") else Fixed(v / 1000.0, 2, " sec")
      case FileSize =>
        if v < 1024.0 then Plain(v, " bytes")
        else
          var kb := v / 1024.0;
          if kb < 1024.0 then Shortened(kb, "KB")
          else
            var mb := kb / 1024.0;
            if mb < 1024.0 then Shortened(mb, "MB")
            else Shortened(mb / 1024.0, "GB")
  }

  /** A value of 0 is a dash whatever its unit, and nothing else is. */
  lemma ZeroIsDash(kind: OutputType, v: real)
    ensures ValueToString(kind, v) == Dash <==> v == 0.0
  {
  }

  /** Milliseconds stay milliseconds below one second and become seconds from one second on,
      shown at the same magnitude. */
  lemma MillisecondsBand(v: real)
    requires v != 0.0
    ensures var r := ValueToString(TimeMilliseconds, v);
      (v < 1000.0 ==> r == Plain(v, "ms")) &&
      (v >= 1000.0 ==> r.Fixed? && r.x * 1000.0 == v && r.places == 2 && r.suffix == " sec")
  {
  }

  /** The magnitude shown in a file-size band, times that band's unit, is the value. */
  function Scale(suffix: string): real {
    if |suffix| != 3 || suffix[0] != ' ' || suffix[2] != 'B' then 1.0
    else if suffix[1] == 'K' then KB
    else if suffix[1] == 'M' then MB
    else if suffix[1] == 'G' then GB
    else 1.0
  }

  /** File sizes: bytes below 1 KB, then KB, MB and GB each for values under 1024 of that unit
      (GB without upper bound); the number shown in KB, MB or GB times the unit is the size,
      and its precision follows the thresholds 10 and 100. */
  lemma FileSizeBands(v: real)
    requires v != 0.0
    ensures var r := ValueToString(FileSize, v);
      (r.Plain? <==> v < KB) &&
      (r.Plain? ==> r == Plain(v, " bytes")) &&
      (r.suffix == " KB" <==> KB <= v < MB) &&
      (r.suffix == " MB" <==> MB <= v < GB) &&
      (r.suffix == " GB" <==> GB <= v) &&
      (r.Fixed? ==> r.x * Scale(r.suffix) == v && r.x < 100.0 &&
                    r.places == (if r.x < 10.0 then 2 else 1)) &&
      (r.Whole? ==> r.n as real * Scale(r.suffix) <= v < (r.n + 1) as real * Scale(r.suffix) &&
                    r.n >= 100)
  {
    if v < KB {
      assert " bytes"[1] == 'b';
    } else {
      KiloBand(v);
      if v < MB {
        KiloCase(v);
      } else {
        MegaBand(v);
        if v < GB {
          MegaCase(v);
        } else {
          GigaCase(v);
        }
      }
    }
  }

  /** What `value_to_string` shows for a file size of at least 1 KB in the band of `unit`. */
  predicate ShownInBand(r: Shown, v: real, unit: string) {
    !r.Dash? && r.suffix == " " + unit &&
    (r.Fixed? ==> r.x * Scale(r.suffix) == v && r.x < 100.0 && r.places == (if r.x < 10.0 then 2 else 1)) &&
    (r.Whole? ==> r.n as real * Scale(r.suffix) <= v < (r.n + 1) as real * Scale(r.suffix) && r.n >= 100)
  }

  lemma KiloCase(v: real)
    requires KB <= v < MB
    ensures !ValueToString(FileSize, v).Plain? && ShownInBand(ValueToString(FileSize, v), v, "KB")
  {
    KiloBand(v);
    assert " KB"[1] == 'K';
    ShortenedBand(v / 1024.0, "KB", KB, v);
  }

  lemma MegaCase(v: real)
    requires MB <= v < GB
    ensures !ValueToString(FileSize, v).Plain? && ShownInBand(ValueToString(FileSize, v), v, "MB")
  {
    KiloBand(v);
    MegaBand(v);
    assert " MB"[1] == 'M';
    ShortenedBand(v / 1024.0 / 1024.0, "MB", MB, v);
  }

  lemma GigaCase(v: real)
    requires GB <= v
    ensures !ValueToString(FileSize, v).Plain? && ShownInBand(ValueToString(FileSize, v), v, "GB")
  {
    KiloBand(v);
    MegaBand(v);
    GigaBand(v);
    assert " GB"[1] == 'G';
    ShortenedBand(v / 1024.0 / 1024.0 / 1024.0, "GB", GB, v);
  }

  lemma KiloBand(v: real)
    requires v >= KB
    ensures var kb := v / 1024.0; kb >= 1.0 && kb * KB == v && (kb < 1024.0 <==> v < MB)
  {
    var kb := v / 1024.0;
    assert kb * 1024.0 == v;
    MulMono(1.0, kb, 1024.0);
    if kb < 1024.0 {
      MulMono(kb, 1024.0, 1024.0);
    } else {
      MulMono(1024.0, kb, 1024.0);
    }
  }

  lemma MegaBand(v: real)
    requires v >= MB
    ensures var mb := v / 1024.0 / 1024.0; mb >= 1.0 && mb * MB == v && (mb < 1024.0 <==> v < GB)
  {
    var mb := v / 1024.0 / 1024.0;
    assert mb * MB == v;
    MulMono(1.0, mb, MB);
    if mb < 1024.0 {
      MulMono(mb, 1024.0, MB);
    } else {
      MulMono(1024.0, mb, MB);
    }
  }

  lemma GigaBand(v: real)
    requires v >= GB
    ensures var gb := v / 1024.0 / 1024.0 / 1024.0; gb >= 1.0 && gb * GB == v
  {
    var gb := v / 1024.0 / 1024.0 / 1024.0;
    assert gb * GB == v;
    MulMono(1.0, gb, GB);
  }

  lemma ShortenedBand(x: real, unit: string, scale: real, v: real)
    requires scale > 0.0 && x * scale == v && x >= 1.0
    requires Scale(" " + unit) == scale
    ensures var r := Shortened(x, unit);
      (r.Fixed? ==> r.x * Scale(r.suffix) == v && r.x < 100.0 &&
                    r.places == (if r.x < 10.0 then 2 else 1)) &&
      (r.Whole? ==> r.n as real * Scale(r.suffix) <= v < (r.n + 1) as real * Scale(r.suffix) &&
                    r.n >= 100)
  {
    var r := Shortened(x, unit);
    if r.Whole? {
      assert r.n as real <= x < (r.n + 1) as real;
      MulMono(r.n as real, x, scale);
      MulMono(x, (r.n + 1) as real, scale);
    }
  }

  lemma MulMono(a: real, b: real, c: real)
    requires c > 0.0 && a <= b
    ensures a * c <= b * c
    ensures a < b ==> a * c < b * c
  {
  }

  // ---- The store ----

  /** What the store holds under a key: the run's name under the reserved key, a tool's
      summary (a map from item names to values) under every other key. */
  datatype Entry = RunName(name: string) | Summary(data: map<string, real>)

  const NameKey := "*** Name ***"

  /** The run name held by a store: "" when the store holds none. */
  function NameIn(dict: map<string, Entry>): (r: string)
    ensures NameKey in dict && dict[NameKey].RunName? ==> r == dict[NameKey].name
    ensures NameKey !in dict ==> r == ""
  {
    if NameKey in dict && dict[NameKey].RunName? then dict[NameKey].name else ""
  }

  class Comparison {
    var dict: map<string, Entry>

    /** A new comparison for the current run: only the name, "" when none is given. */
    constructor (name: Option<string>)
      ensures dict == map[NameKey := RunName(if name.Some? then name.value else "")]
    {
      dict := map[NameKey := RunName(if name.Some? then name.value else "")];
    }

    /** A comparison decoded from an earlier run's file. */
    constructor Loaded(decoded: map<string, Entry>)
      ensures dict == decoded
    {
      dict := decoded;
    }

    /** `name`. */
    function Name(): string
      reads this
    {
      NameIn(dict)
    }

    /** `add_summary`: every key, the reserved name key included, can be added only once. */
    method AddSummary(key: string, data: map<string, real>) returns (r: Result<()>)
      modifies this
      ensures key in old(dict) <==> r.Fatal?
      ensures r.Ok? ==> dict == old(dict)[key := Summary(data)]
      ensures r.Fatal? ==> dict == old(dict)
    {
      if key in dict {
        return Fatal("Comparison summary data for " + key + " already exists");
      }
      dict := dict[key := Summary(data)];
      return Ok(());
    }

    /** `summary_data`: the summary stored under the key, empty when there is none. */
    function SummaryData(key: string): (r: map<string, real>)
      reads this
      ensures key in dict && dict[key].Summary? ==> r == dict[key].data
      ensures key !in dict ==> r == map[]
    {
      if key in dict && dict[key].Summary? then dict[key].data else map[]
    }
  }

  // ---- Delta rows ----

  /** The percentage column: not applicable, a whole percentage (magnitude 100 or more,
      truncated), a percentage truncated to hundredths (`h` hundredths), or infinity. `plus`
      is the `+` prefix. */
  datatype Delta =
    | NotApplicable
    | WholePercent(plus: bool, pct: int)
    | Hundredths(plus: bool, h: int)
    | Infinite(plus: bool)

  datatype Color = LightGrey | Green | Red

  /** The change from `last` to `cur`, as a percentage of `last` (positive when smaller). */
  function Percentage(last: real, cur: real): real
    requires last > 0.0
  {
    (last - cur) / last * 100.0
  }

  function DeltaOf(last: Option<real>, cur: Option<real>): Delta {
    if last.None? || cur.None? || (last.value == 0.0 && cur.value == 0.0) then NotApplicable
    else
      var plus := cur.value < last.value;
      if last.value > 0.0 then
        var pct := Percentage(last.value, cur.value);
        if pct >= 100.0 || pct <= -100.0 then WholePercent(plus, Trunc(pct))
        else Hundredths(plus, Trunc(pct * 100.0))
      else Infinite(plus)
  }

  function ColorOf(last: Option<real>, cur: Option<real>, smallerIsBetter: bool): Color {
    if last.None? || cur.None? || (last.value == 0.0 && cur.value == 0.0) then LightGrey
    else if cur.value < last.value then (if smallerIsBetter then Green else Red)
    else if cur.value > last.value then (if smallerIsBetter then Red else Green)
    else LightGrey
  }

  /** The delta is not applicable exactly when a side is missing or both are 0; otherwise
      the `+` appears exactly when the value went down, infinity exactly when the earlier
      value is not positive, and the number shown has the sign of the change and is the
      percentage truncated toward zero, whole from 100% on and in hundredths below. */
  lemma DeltaRules(last: Option<real>, cur: Option<real>)
    ensures DeltaOf(last, cur).NotApplicable? <==>
      last.None? || cur.None? || (last.value == 0.0 && cur.value == 0.0)
    ensures !DeltaOf(last, cur).NotApplicable? ==>
      (DeltaOf(last, cur).plus <==> cur.value < last.value) &&
      (DeltaOf(last, cur).Infinite? <==> last.value <= 0.0)
    ensures DeltaOf(last, cur).WholePercent? ==>
      var pct := Percentage(last.value, cur.value);
      var n := DeltaOf(last, cur).pct;
      (n >= 100 && n as real <= pct < n as real + 1.0) ||
      (n <= -100 && n as real - 1.0 < pct <= n as real)
    ensures DeltaOf(last, cur).Hundredths? ==>
      var pct := Percentage(last.value, cur.value);
      var h := DeltaOf(last, cur).h;
      -100.0 < pct < 100.0 && -10000 < h < 10000 &&
      (pct >= 0.0 ==> h as real <= pct * 100.0 < h as real + 1.0) &&
      (pct < 0.0 ==> h as real - 1.0 < pct * 100.0 <= h as real)
    ensures !DeltaOf(last, cur).NotApplicable? && !DeltaOf(last, cur).Infinite? ==>
      (DeltaOf(last, cur).plus <==> Percentage(last.value, cur.value) > 0.0)
  {
    var d := DeltaOf(last, cur);
    if !d.NotApplicable? && last.value > 0.0 {
      var pct := Percentage(last.value, cur.value);
      assert cur.value < last.value <==> last.value - cur.value > 0.0;
      assert pct > 0.0 <==> (last.value - cur.value) / last.value > 0.0;
    }
  }

  /** One line of `log_summary`: both sides rendered (a dash for a missing side), the delta
      and its colour, and the key. */
  datatype Row = Row(lastShown: Shown, currentShown: Shown, delta: Delta, color: Color, key: string)

  function Get(m: map<string, real>, k: string): Option<real> {
    if k in m then Some(m[k]) else None
  }

  function RowOf(units: OutputType, key: string, summary: map<string, real>,
                 last: map<string, real>, smallerIsBetter: bool): Row
  {
    var l := Get(last, key);
    var c := Get(summary, key);
    Row(if l.Some? then ValueToString(units, l.value) else Dash,
        if c.Some? then ValueToString(units, c.value) else Dash,
        DeltaOf(l, c), ColorOf(l, c, smallerIsBetter), key)
  }

  /** `list(keys_set)` followed by `sort()`: the keys in ascending order, each once. */
  method SortedKeys(a: set<string>) returns (ks: seq<string>)
    ensures StrictlySorted(ks)
    ensures forall k :: k in ks <==> k in a
    ensures |ks| == |a|
  {
    var listed: seq<string> := [];
    var rest := a;
    while rest != {}
      invariant rest <= a
      invariant forall k :: k in listed <==> k in a - rest
      invariant Distinct(listed)
      invariant |listed| + |rest| == |a|
      decreases rest
    {
      var k :| k in rest;
      ListedStep(listed, k);
      listed := listed + [k];
      rest := rest - {k};
    }
    ks := Sort(listed);
    SortIsSorted(listed);
    DistinctCount(listed);
    DistinctCount(ks);
    SortedDistinctIsStrict(ks);
    forall k ensures k in ks <==> k in listed {
      assert k in multiset(ks) <==> k in multiset(listed);
    }
  }

  lemma ListedStep(listed: seq<string>, k: string)
    requires Distinct(listed) && k !in listed
    ensures Distinct(listed + [k])
  {
  }

  /** The body of the `log_summary` loop for one key. */
  method SummaryRow(units: OutputType, key: string, summary: map<string, real>,
                    last: map<string, real>, smallerIsBetter: bool) returns (row: Row)
    ensures row == RowOf(units, key, summary, last, smallerIsBetter)
  {
    var lastValue: Option<real> := None;
    var lastShown := Dash;
    if key in last {
      lastValue := Some(last[key]);
      lastShown := ValueToString(units, last[key]);
    }
    var value: Option<real> := None;
    var shown := Dash;
    if key in summary {
      value := Some(summary[key]);
      shown := ValueToString(units, summary[key]);
    }
    var difference: Delta;
    var color: Color;
    if lastValue.None? || value.None? || (lastValue.value == 0.0 && value.value == 0.0) {
      difference := NotApplicable;
      color := LightGrey;
    } else {
      var plus := false;
      color := LightGrey;
      if value.value < lastValue.value {
        plus := true;
        color := if smallerIsBetter then Green else Red;
      } else if value.value > lastValue.value {
        color := if smallerIsBetter then Red else Green;
      }
      if lastValue.value > 0.0 {
        var percentage := (lastValue.value - value.value) / lastValue.value * 100.0;
        if percentage >= 100.0 || percentage <= -100.0 {
          difference := WholePercent(plus, Trunc(percentage));
        } else {
          difference := Hundredths(plus, Trunc(percentage * 100.0));
        }
      } else {
        difference := Infinite(plus);
      }
    }
    row := Row(lastShown, shown, difference, color, key);
  }

  function RowKeys(rows: seq<Row>): (r: seq<string>)
    ensures |r| == |rows| && forall i :: 0 <= i < |rows| ==> r[i] == rows[i].key
  {
    seq(|rows|, i requires 0 <= i < |rows| => rows[i].key)
  }

  /** Every row is the one `log_summary` prints for its own key. */
  predicate RowsMatch(rows: seq<Row>, units: OutputType, summary: map<string, real>,
                      last: map<string, real>, smallerIsBetter: bool)
  {
    forall i :: 0 <= i < |rows| ==> rows[i] == RowOf(units, rows[i].key, summary, last, smallerIsBetter)
  }

  lemma RowsMatchAppend(rows: seq<Row>, row: Row, units: OutputType, summary: map<string, real>,
                        last: map<string, real>, smallerIsBetter: bool)
    requires RowsMatch(rows, units, summary, last, smallerIsBetter)
    requires row == RowOf(units, row.key, summary, last, smallerIsBetter)
    ensures RowsMatch(rows + [row], units, summary, last, smallerIsBetter)
  {
    var r := rows + [row];
    forall i | 0 <= i < |r| ensures r[i] == RowOf(units, r[i].key, summary, last, smallerIsBetter) {
      if i < |rows| {
        assert r[i] == rows[i];
      }
    }
  }

  /** `log_summary`: one row per key of either summary, in ascending key order. */
  method LogSummary(units: OutputType, summary: map<string, real>, last: map<string, real>,
                    smallerIsBetter: bool) returns (rows: seq<Row>)
    ensures |rows| == |summary.Keys + last.Keys|
    ensures StrictlySorted(RowKeys(rows))
    ensures forall k :: k in RowKeys(rows) <==> k in summary || k in last
    ensures RowsMatch(rows, units, summary, last, smallerIsBetter)
  {
    var keys := SortedKeys(summary.Keys + last.Keys);
    rows := [];
    for i := 0 to |keys|
      invariant |rows| == i
      invariant RowsMatch(rows, units, summary, last, smallerIsBetter)
      invariant RowKeys(rows) == keys[..i]
    {
      var row := SummaryRow(units, keys[i], summary, last, smallerIsBetter);
      RowsMatchAppend(rows, row, units, summary, last, smallerIsBetter);
      rows := rows + [row];
      assert RowKeys(rows) == keys[..i + 1];
    }
    assert keys[..|keys|] == keys;
  }
}
