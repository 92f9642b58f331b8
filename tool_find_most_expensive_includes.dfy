/** The expensive-includes tool: every `Source` event is put in a bucket keyed by the
    lowercased path of the file it includes, once for the whole project (the target named
    "") and once for its own target; the buckets are then listed by time and by name. */
module ToolFindMostExpensiveIncludes {
  import opened Wrappers
  import opened Strings
  import opened TimingDataItem
  import opened TimingData
  import opened Comparison
  import opened Aggregation
  import Context

  /** The target name under which the whole project's includes are bucketed. */
  const EmptyTargetName := ""
  const ByTimeFileName := "expensive_includes.txt"
  const ByTargetFileName := "expensive_includes_by_target.txt"
  const ByFileFileName := "includes_by_filename.txt"

  /** The tuple stored per include: the first spelling of its path, the summed duration,
      how often it was included and the events that were counted. */
  datatype Bucket = Bucket(spelling: string, total: int, count: int, items: seq<TimingDataItem>)

  /** Buckets by target name, then by lowercased include path. */
  type Buckets = map<string, map<string, Bucket>>

  function SourceKey(e: TimingDataItem): string {
    Lower(Detail(e))
  }

  function BucketTotal(b: Bucket): int {
    b.total
  }

  /** The bucket's fields agree with the events it holds, and the key is its lowercased
      spelling. */
  predicate BucketOk(key: string, b: Bucket) {
    b.count == |b.items| && b.count >= 1 && b.total == Sum(b.items, Duration) && Lower(b.spelling) == key
  }

  predicate FilesOk(files: map<string, Bucket>) {
    forall k :: k in files ==> BucketOk(k, files[k])
  }

  /** One target's part of `_add_item_to_source_files`. */
  function AddToFiles(files: map<string, Bucket>, sourceFile: string, e: TimingDataItem): map<string, Bucket> {
    var key := Lower(sourceFile);
    if key in files then
      var b := files[key];
      files[key := Bucket(b.spelling, b.total + e.duration, b.count + 1, b.items + [e])]
    else
      files[key := Bucket(sourceFile, e.duration, 1, [e])]
  }

  /** `_add_item_to_source_files`. */
  function AddItem(targets: Buckets, targetName: string, sourceFile: string, e: TimingDataItem): Buckets {
    var files := if targetName in targets then targets[targetName] else map[];
    targets[targetName := AddToFiles(files, sourceFile, e)]
  }

  /** Only the bucket of `sourceFile` under `targetName` changes; it is created on first
      sight with the spelling given, and afterwards keeps its first spelling while its count
      goes up by one, its total by the event's duration, and the event is appended. */
  lemma AddItemIs(targets: Buckets, targetName: string, sourceFile: string, e: TimingDataItem)
    ensures var r := AddItem(targets, targetName, sourceFile, e);
      r.Keys == targets.Keys + {targetName} &&
      forall t :: t in targets && t != targetName ==> r[t] == targets[t]
    ensures var r := AddItem(targets, targetName, sourceFile, e);
      var files := if targetName in targets then targets[targetName] else map[];
      var key := Lower(sourceFile);
      r[targetName].Keys == files.Keys + {key} &&
      (forall k :: k in files && k != key ==> r[targetName][k] == files[k]) &&
      r[targetName][key].spelling == (if key in files then files[key].spelling else sourceFile) &&
      r[targetName][key].count == (if key in files then files[key].count else 0) + 1 &&
      r[targetName][key].total == (if key in files then files[key].total else 0) + e.duration &&
      r[targetName][key].items == (if key in files then files[key].items else []) + [e]
  {
    assert [] + [e] == [e];
  }

  /** Adding keeps every bucket consistent with its events. */
  lemma AddToFilesOk(files: map<string, Bucket>, sourceFile: string, e: TimingDataItem)
    requires FilesOk(files)
    ensures FilesOk(AddToFiles(files, sourceFile, e))
  {
    var key := Lower(sourceFile);
    if key in files {
      SumSnoc(files[key].items, e, Duration);
    } else {
      var b := Bucket(sourceFile, e.duration, 1, [e]);
      assert [e][..0] == [];
      assert Sum([e], Duration) == e.duration;
    }
  }

  /** The buckets of one target, filled from its events in order. */
  function Bucketize(s: seq<TimingDataItem>): map<string, Bucket> {
    if s == [] then map[] else AddToFiles(Bucketize(s[..|s| - 1]), Detail(s[|s| - 1]), s[|s| - 1])
  }

  /** `m` has a bucket for every lowercased path in `s`, and each holds exactly the events
      with that path, in order, spelled as the first of them spells it. */
  predicate BucketsOf(s: seq<TimingDataItem>, m: map<string, Bucket>) {
    m.Keys == KeysOf(s, SourceKey) &&
    forall k :: k in m ==> IsBucketOf(Having(s, SourceKey, k), m[k])
  }

  predicate IsBucketOf(h: seq<TimingDataItem>, b: Bucket) {
    h != [] && b.spelling == Detail(h[0]) && b.total == Sum(h, Duration) && b.count == |h| && b.items == h
  }

  lemma {:induction false} BucketizeIs(s: seq<TimingDataItem>)
    ensures BucketsOf(s, Bucketize(s))
  {
    if s != [] {
      var init := s[..|s| - 1];
      var x := s[|s| - 1];
      assert s == init + [x];
      BucketizeIs(init);
      BucketizeStep(init, x, Bucketize(init));
    }
  }

  lemma BucketizeStep(s: seq<TimingDataItem>, x: TimingDataItem, m: map<string, Bucket>)
    requires BucketsOf(s, m)
    ensures BucketsOf(s + [x], AddToFiles(m, Detail(x), x))
  {
    var m' := AddToFiles(m, Detail(x), x);
    assert m'.Keys == KeysOf(s + [x], SourceKey) by {
      KeysOfAppend(s, x, SourceKey);
    }
    forall k | k in m' ensures IsBucketOf(Having(s + [x], SourceKey, k), m'[k]) {
      BucketStepAt(s, x, m, k);
    }
  }

  lemma BucketStepAt(s: seq<TimingDataItem>, x: TimingDataItem, m: map<string, Bucket>, k: string)
    requires k in m ==> IsBucketOf(Having(s, SourceKey, k), m[k])
    requires k !in m ==> k !in KeysOf(s, SourceKey)
    requires k in AddToFiles(m, Detail(x), x)
    ensures IsBucketOf(Having(s + [x], SourceKey, k), AddToFiles(m, Detail(x), x)[k])
  {
    HavingSnoc(s, x, SourceKey, k);
    var h := Having(s, SourceKey, k);
    if k == SourceKey(x) {
      if k in m {
        BucketGrow(h, m[k], x);
      } else {
        HavingAbsent(s, SourceKey, k);
        assert h + [x] == [x];
        BucketNew(x);
      }
    } else {
      assert AddToFiles(m, Detail(x), x)[k] == m[k];
    }
  }

  /** A bucket that takes one more event of its path. */
  lemma BucketGrow(h: seq<TimingDataItem>, b: Bucket, x: TimingDataItem)
    requires IsBucketOf(h, b)
    ensures IsBucketOf(h + [x], Bucket(b.spelling, b.total + x.duration, b.count + 1, b.items + [x]))
  {
    SumSnoc(h, x, Duration);
    assert (h + [x])[0] == h[0];
  }

  /** A bucket created for an event whose path was not seen before. */
  lemma BucketNew(x: TimingDataItem)
    ensures IsBucketOf([x], Bucket(Detail(x), x.duration, 1, [x]))
  {
    SumSnoc([], x, Duration);
    assert [] + [x] == [x];
  }

  // ---- run: the bucketing loop ----

  /** A `Source` event that is bucketed: it names the included file and its target. */
  predicate Counted(e: TimingDataItem) {
    IsSource(e) && Detail(e) != "" && e.target != ""
  }

  /** The nested buckets after adding each event, once for the project and once for its
      target. */
  function AllBuckets(s: seq<TimingDataItem>): Buckets {
    if s == [] then map[]
    else
      var x := s[|s| - 1];
      var b := AddItem(AllBuckets(s[..|s| - 1]), EmptyTargetName, Detail(x), x);
      AddItem(b, x.target, Detail(x), x)
  }

  /** The project's buckets hold every event, and each target's buckets hold that target's
      events: the project entry exists once there is an event, and a target entry exactly
      when an event of that target occurs. */
  ghost predicate SplitOk(s: seq<TimingDataItem>, m: Buckets) {
    (EmptyTargetName in m <==> s != []) &&
    (s != [] ==> m[EmptyTargetName] == Bucketize(s)) &&
    (forall t :: t != EmptyTargetName ==> (t in m <==> t in KeysOf(s, ItemTarget))) &&
    (forall t :: t != EmptyTargetName && t in m ==> m[t] == Bucketize(Having(s, ItemTarget, t)))
  }

  lemma {:induction false} AllBucketsSplit(s: seq<TimingDataItem>)
    requires forall i :: 0 <= i < |s| ==> s[i].target != EmptyTargetName
    ensures SplitOk(s, AllBuckets(s))
  {
    if s != [] {
      var init := s[..|s| - 1];
      var x := s[|s| - 1];
      assert s == init + [x];
      AllBucketsSplit(init);
      SplitStep(init, x, AllBuckets(init));
    }
  }

  lemma AllBucketsSnoc(s: seq<TimingDataItem>, x: TimingDataItem)
    ensures AllBuckets(s + [x]) == AddItem(AddItem(AllBuckets(s), EmptyTargetName, Detail(x), x), x.target, Detail(x), x)
  {
    var ys := s + [x];
    assert ys[..|ys| - 1] == s && ys[|ys| - 1] == x;
  }

  lemma BucketizeSnoc(s: seq<TimingDataItem>, x: TimingDataItem)
    ensures Bucketize(s + [x]) == AddToFiles(Bucketize(s), Detail(x), x)
  {
    var ys := s + [x];
    assert ys[..|ys| - 1] == s && ys[|ys| - 1] == x;
  }

  lemma SplitStep(s: seq<TimingDataItem>, x: TimingDataItem, m: Buckets)
    requires SplitOk(s, m) && x.target != EmptyTargetName
    ensures SplitOk(s + [x], AddItem(AddItem(m, EmptyTargetName, Detail(x), x), x.target, Detail(x), x))
  {
    var m1 := AddItem(m, EmptyTargetName, Detail(x), x);
    var m2 := AddItem(m1, x.target, Detail(x), x);
    BucketizeSnoc(s, x);
    KeysOfAppend(s, x, ItemTarget);
    if s == [] {
      assert m1[EmptyTargetName] == AddToFiles(map[], Detail(x), x);
    } else {
      assert m1[EmptyTargetName] == AddToFiles(Bucketize(s), Detail(x), x);
    }
    assert m2[EmptyTargetName] == m1[EmptyTargetName];
    forall t | t != EmptyTargetName && t in m2
      ensures m2[t] == Bucketize(Having(s + [x], ItemTarget, t))
    {
      HavingSnoc(s, x, ItemTarget, t);
      var h := Having(s, ItemTarget, t);
      if t == x.target {
        BucketizeSnoc(h, x);
        if t !in m {
          HavingAbsent(s, ItemTarget, t);
          assert m2[t] == AddToFiles(map[], Detail(x), x);
        }
      }
    }
  }

  /** The number of distinct includes is the number of distinct lowercased paths among the
      bucketed events. */
  lemma IncludeCountIs(s: seq<TimingDataItem>)
    requires forall i :: 0 <= i < |s| ==> s[i].target != EmptyTargetName
    ensures EmptyTargetName in AllBuckets(s) ==> |AllBuckets(s)[EmptyTargetName]| == |KeysOf(s, SourceKey)|
    ensures EmptyTargetName !in AllBuckets(s) <==> s == []
  {
    AllBucketsSplit(s);
    if s != [] {
      BucketizeIs(s);
    }
  }

  /** `targets_to_source_files`: the distinct trace paths of each target. */
  function TraceSets(tds: seq<TimingData>): map<string, set<string>> {
    if tds == [] then map[]
    else
      var m := TraceSets(tds[..|tds| - 1]);
      var td := tds[|tds| - 1];
      m[td.target := (if td.target in m then m[td.target] else {}) + {td.path}]
  }

  /** There is an entry for every target with a trace, holding the paths of its traces. */
  lemma {:induction false} TraceSetsAre(tds: seq<TimingData>)
    ensures forall t :: t in TraceSets(tds) <==> exists i :: 0 <= i < |tds| && tds[i].target == t
    ensures forall t, p :: t in TraceSets(tds) ==>
      (p in TraceSets(tds)[t] <==> exists i :: 0 <= i < |tds| && tds[i].target == t && tds[i].path == p)
  {
    if tds != [] {
      var init := tds[..|tds| - 1];
      TraceSetsAre(init);
      forall t ensures t in TraceSets(tds) <==> exists i :: 0 <= i < |tds| && tds[i].target == t {
        if i :| 0 <= i < |init| && init[i].target == t {
          assert tds[i] == init[i];
        }
        if i :| 0 <= i < |tds| && tds[i].target == t && i < |init| {
          assert tds[i] == init[i];
        }
      }
      forall t, p | t in TraceSets(tds)
        ensures p in TraceSets(tds)[t] <==> exists i :: 0 <= i < |tds| && tds[i].target == t && tds[i].path == p
      {
        if i :| 0 <= i < |init| && init[i].target == t && init[i].path == p {
          assert tds[i] == init[i];
        }
        if i :| 0 <= i < |tds| && tds[i].target == t && tds[i].path == p && i < |init| {
          assert tds[i] == init[i];
        }
      }
    }
  }

  /** The inner loop of `run` over one trace's events. */
  method GatherTrace(items: seq<TimingDataItem>, targets: Buckets, ghost before: seq<TimingDataItem>)
    returns (targets': Buckets)
    requires targets == AllBuckets(Filter(before, Counted))
    ensures targets' == AllBuckets(Filter(before + items, Counted))
  {
    targets' := targets;
    assert before + items[..0] == before;
    for j := 0 to |items|
      invariant targets' == AllBuckets(Filter(before + items[..j], Counted))
    {
      targets' := GatherItem(targets', items[j], before + items[..j]);
      AppendPrefixSnoc(before, items, j);
    }
    assert items[..|items|] == items;
  }

  /** The body of the inner loop: a bucketed event goes into the project's buckets and
      its target's. */
  method GatherItem(targets: Buckets, item: TimingDataItem, ghost seen: seq<TimingDataItem>)
    returns (targets': Buckets)
    requires targets == AllBuckets(Filter(seen, Counted))
    ensures targets' == AllBuckets(Filter(seen + [item], Counted))
  {
    FilterSnoc(seen, item, Counted);
    ghost var counted := Filter(seen, Counted);
    targets' := targets;
    if !IsSource(item) {
      return;
    }
    var sourceFile := Detail(item);
    if |sourceFile| == 0 {
      return;
    }
    var targetName := item.target;
    if |targetName| == 0 {
      return;
    }
    AllBucketsSnoc(counted, item);
    targets' := AddItem(targets', EmptyTargetName, sourceFile, item);
    targets' := AddItem(targets', targetName, sourceFile, item);
  }

  /** The outer loop of `run`: the trace paths per target, and the buckets. */
  method Gather(tds: seq<TimingData>) returns (targets: Buckets, tts: map<string, set<string>>, order: seq<string>)
    ensures targets == AllBuckets(Filter(Flatten(EventsOf(tds)), Counted))
    ensures tts == TraceSets(tds) && order == Context.GroupOrder(tds)
  {
    ghost var es := EventsOf(tds);
    targets, tts, order := map[], map[], [];
    for i := 0 to |tds|
      invariant targets == AllBuckets(Filter(Flatten(es[..i]), Counted))
      invariant tts == TraceSets(tds[..i]) && order == Context.GroupOrder(tds[..i])
    {
      tts, order := NoteTrace(tts, order, tds, i);
      targets := GatherTrace(tds[i].items, targets, Flatten(es[..i]));
      FlattenSnoc(es, i);
    }
    assert es[..|tds|] == es;
    assert tds[..|tds|] == tds;
  }

  /** The first half of the outer loop's body: the trace's path under its target, and the
      target in first-appearance order. */
  method NoteTrace(tts: map<string, set<string>>, order: seq<string>, tds: seq<TimingData>, i: int)
    returns (tts': map<string, set<string>>, order': seq<string>)
    requires 0 <= i < |tds|
    requires tts == TraceSets(tds[..i]) && order == Context.GroupOrder(tds[..i])
    ensures tts' == TraceSets(tds[..i + 1]) && order' == Context.GroupOrder(tds[..i + 1])
  {
    assert tds[..i + 1][..i] == tds[..i];
    var targetName := tds[i].target;
    TraceSetsAre(tds[..i]);
    tts', order' := tts, order;
    if targetName !in tts' {
      tts' := tts'[targetName := {}];
      order' := order' + [targetName];
    }
    tts' := tts'[targetName := tts'[targetName] + {tds[i].path}];
  }

  // ---- the report files ----

  /** One line of `expensive_includes.txt` or `expensive_includes_by_target.txt`: truncated
      milliseconds, the average per include, the include count, the number of traces it is
      counted against, and the path as first spelled. */
  datatype IncludeRow = IncludeRow(milliseconds: int, average: int, count: int, ofItems: int, file: string)

  /** The average is taken of the already truncated milliseconds. */
  function RowOf(b: Bucket, ofItems: int): IncludeRow
    requires b.count >= 1
  {
    var ms := TruncDiv(b.total, 1000);
    IncludeRow(ms, TruncDiv(ms, b.count), b.count, ofItems, b.spelling)
  }

  /** A bucket counted only once is left out of the by-target listing. */
  predicate Listable(ignoreSingle: bool, b: Bucket) {
    !(ignoreSingle && b.count == 1)
  }

  predicate RowsDescend(rows: seq<IncludeRow>) {
    forall i, j :: 0 <= i < j < |rows| ==> rows[i].milliseconds >= rows[j].milliseconds
  }

  /** The buckets of one target, largest total first. */
  method ByTotal(files: map<string, Bucket>) returns (sorted: seq<Bucket>)
    ensures SortedDesc(sorted, BucketTotal) && |sorted| == |files|
    ensures forall b :: b in sorted <==> exists k :: k in files && files[k] == b
  {
    var keys := SortedKeys(files.Keys);
    var list: seq<Bucket> := [];
    for i := 0 to |keys|
      invariant |list| == i && forall m :: 0 <= m < i ==> list[m] == files[keys[m]]
    {
      list := list + [files[keys[i]]];
    }
    sorted := SortDesc(list, BucketTotal);
    forall b ensures b in sorted <==> exists k :: k in files && files[k] == b {
      assert b in sorted <==> b in multiset(list);
      if k :| k in files && files[k] == b {
        var m :| 0 <= m < |keys| && keys[m] == k;
        assert list[m] == b;
      }
    }
  }

  /** The rows of one section, in bucket order, skipping what is not listable. */
  method ListRows(sorted: seq<Bucket>, ignoreSingle: bool, ofItems: int) returns (rows: seq<IncludeRow>)
    requires forall b :: b in sorted ==> b.count >= 1
    requires SortedDesc(sorted, BucketTotal)
    ensures RowsDescend(rows)
    ensures forall r :: r in rows <==> exists b :: b in sorted && Listable(ignoreSingle, b) && r == RowOf(b, ofItems)
  {
    rows := [];
    for k := 0 to |sorted|
      invariant RowsDescend(rows)
      invariant forall r :: r in rows <==> exists m :: 0 <= m < k && Listable(ignoreSingle, sorted[m]) && r == RowOf(sorted[m], ofItems)
      invariant forall i :: 0 <= i < |rows| ==> forall m :: k <= m < |sorted| ==> rows[i].milliseconds >= TruncDiv(sorted[m].total, 1000)
    {
      var b := sorted[k];
      forall m | k <= m < |sorted| ensures TruncDiv(b.total, 1000) >= TruncDiv(sorted[m].total, 1000) {
        TruncDivMonotone(b.total, sorted[m].total, 1000);
      }
      if ignoreSingle && b.count == 1 {
        continue;
      }
      rows := rows + [RowOf(b, ofItems)];
    }
    forall r ensures r in rows <==> exists b :: b in sorted && Listable(ignoreSingle, b) && r == RowOf(b, ofItems) {
      if b :| b in sorted && Listable(ignoreSingle, b) && r == RowOf(b, ofItems) {
        var m :| 0 <= m < |sorted| && sorted[m] == b;
      }
    }
  }

  /** The total number of trace paths, summed over the targets in dictionary order. */
  function SizeSum(tts: map<string, set<string>>, order: seq<string>): int {
    if order == [] then 0
    else SizeSum(tts, order[..|order| - 1]) + (if order[|order| - 1] in tts then |tts[order[|order| - 1]]| else 0)
  }

  /** The project listing counts each include against every trace path of every target. */
  method CountTraces(tts: map<string, set<string>>, order: seq<string>) returns (n: int)
    ensures n == SizeSum(tts, order)
  {
    n := 0;
    for i := 0 to |order|
      invariant n == SizeSum(tts, order[..i])
    {
      assert order[..i + 1][..i] == order[..i];
      if order[i] in tts {
        n := n + |tts[order[i]]|;
      }
    }
    assert order[..|order|] == order;
  }

  /** Every bucket of every target agrees with its events. */
  predicate AllOk(targets: Buckets) {
    forall t :: t in targets ==> FilesOk(targets[t])
  }

  lemma {:induction false} AllBucketsOk(s: seq<TimingDataItem>)
    ensures AllOk(AllBuckets(s))
  {
    if s != [] {
      var init := s[..|s| - 1];
      var x := s[|s| - 1];
      AllBucketsOk(init);
      var m := AllBuckets(init);
      var m1 := AddItem(m, EmptyTargetName, Detail(x), x);
      AddToFilesOk(if EmptyTargetName in m then m[EmptyTargetName] else map[], Detail(x), x);
      assert AllOk(m1);
      AddToFilesOk(if x.target in m1 then m1[x.target] else map[], Detail(x), x);
    }
  }

  /** `rows` lists, largest first, one row per listable bucket of `files`. */
  ghost predicate RowsFor(rows: seq<IncludeRow>, files: map<string, Bucket>, ignoreSingle: bool, ofItems: int) {
    RowsDescend(rows) &&
    forall r :: r in rows <==>
      exists k :: k in files && files[k].count >= 1 && Listable(ignoreSingle, files[k]) && r == RowOf(files[k], ofItems)
  }

  /** One section: the buckets of a target sorted by total, then listed. */
  method Section(files: map<string, Bucket>, ignoreSingle: bool, ofItems: int) returns (rows: seq<IncludeRow>)
    requires FilesOk(files)
    ensures RowsFor(rows, files, ignoreSingle, ofItems)
  {
    var sorted := ByTotal(files);
    rows := ListRows(sorted, ignoreSingle, ofItems);
  }

  /** `_write_expensive_includes_sorted_by_time`. A missing project entry fails like a
      failed write, as the lookup is inside the same `try`. */
  method WriteSortedByTime(targets: Buckets, tts: map<string, set<string>>, order: seq<string>,
                           sortByTarget: bool, ignoreSingle: bool, canWrite: bool)
    returns (ok: bool, sections: seq<(string, seq<IncludeRow>)>)
    requires AllOk(targets)
    ensures ok == (canWrite && EmptyTargetName in targets)
    ensures ok && !sortByTarget ==>
      |sections| == 1 && sections[0].0 == EmptyTargetName &&
      RowsFor(sections[0].1, targets[EmptyTargetName], ignoreSingle, SizeSum(tts, order))
    ensures ok && sortByTarget ==>
      StrictlySorted(Firsts(sections)) &&
      (forall t :: t in Firsts(sections) <==> t in targets && t != EmptyTargetName) &&
      forall k :: 0 <= k < |sections| && sections[k].0 in tts ==>
        RowsFor(sections[k].1, targets[sections[k].0], ignoreSingle, |tts[sections[k].0]|)
  {
    sections := [];
    if !canWrite || EmptyTargetName !in targets {
      return false, sections;
    }
    if !sortByTarget {
      var total := CountTraces(tts, order);
      var rows := Section(targets[EmptyTargetName], ignoreSingle, total);
      return true, [(EmptyTargetName, rows)];
    }
    var names := SortedKeys(targets.Keys - {EmptyTargetName});
    var carried := 0;
    for k := 0 to |names|
      invariant |sections| == k && Firsts(sections) == names[..k]
      invariant forall i :: 0 <= i < k ==>
        sections[i].0 in targets &&
        (sections[i].0 in tts ==> RowsFor(sections[i].1, targets[sections[i].0], ignoreSingle, |tts[sections[i].0]|))
    {
      var name := names[k];
      assert name in names;
      var ofItems := if name in tts then |tts[name]| else carried;
      var rows := Section(targets[name], ignoreSingle, ofItems);
      if |rows| > 0 {
        carried := ofItems;
      }
      ghost var before := sections;
      sections := sections + [(name, rows)];
      assert sections[..k] == before;
      assert names[..k + 1] == names[..k] + [name];
    }
    assert names[..|names|] == names;
    ok := true;
  }

  /** One line of `includes_by_filename.txt`. */
  datatype FileRow = FileRow(file: string, milliseconds: int, average: int, count: int)

  function FileRowOf(b: Bucket): FileRow
    requires b.count >= 1
  {
    var ms := TruncDiv(b.total, 1000);
    FileRow(b.spelling, ms, TruncDiv(ms, b.count), b.count)
  }

  /** `_write_expensive_includes_sorted_by_file`: every project bucket, by lowercased path. */
  method WriteSortedByFile(targets: Buckets, canWrite: bool) returns (ok: bool, keys: seq<string>, rows: seq<FileRow>)
    requires AllOk(targets)
    ensures ok == canWrite
    ensures var files := if EmptyTargetName in targets then targets[EmptyTargetName] else map[];
      StrictlySorted(keys) && (forall k :: k in keys <==> k in files) && |keys| == |files| && |rows| == |keys| &&
      forall i :: 0 <= i < |keys| ==> keys[i] in files && rows[i] == FileRowOf(files[keys[i]])
  {
    var files: map<string, Bucket> := map[];
    if EmptyTargetName in targets {
      files := targets[EmptyTargetName];
    }
    keys := SortedKeys(files.Keys);
    rows := [];
    for i := 0 to |keys|
      invariant |rows| == i && forall m :: 0 <= m < i ==> keys[m] in files && rows[m] == FileRowOf(files[keys[m]])
    {
      assert keys[i] in keys;
      rows := rows + [FileRowOf(files[keys[i]])];
    }
    ok := canWrite;
  }

  /** What the bucketing loop leaves: the project entry exists exactly when an event was
      counted, holds one bucket per distinct lowercased path, and the other entries are the
      counted events' targets. */
  lemma CountedBuckets(events: seq<TimingDataItem>)
    ensures var counted := Filter(events, Counted);
      var targets := AllBuckets(counted);
      AllOk(targets) &&
      (EmptyTargetName in targets <==> counted != []) &&
      (EmptyTargetName in targets ==>
        |targets[EmptyTargetName]| >= 1 && targets[EmptyTargetName] == Bucketize(counted) &&
        targets[EmptyTargetName].Keys == KeysOf(counted, SourceKey)) &&
      EmptyTargetName !in KeysOf(counted, ItemTarget) &&
      forall t :: t != EmptyTargetName ==> (t in targets <==> t in KeysOf(counted, ItemTarget))
  {
    var counted := Filter(events, Counted);
    var targets := AllBuckets(counted);
    assert forall i :: 0 <= i < |counted| ==> counted[i].target != EmptyTargetName by {
      FilterHas(events, Counted);
      forall i | 0 <= i < |counted| ensures counted[i].target != EmptyTargetName {
        assert counted[i] in counted;
      }
    }
    assert EmptyTargetName !in KeysOf(counted, ItemTarget);
    AllBucketsOk(counted);
    assert SplitOk(counted, targets) by {
      AllBucketsSplit(counted);
    }
    if counted != [] {
      assert targets[EmptyTargetName].Keys == KeysOf(counted, SourceKey) by {
        BucketizeIs(counted);
      }
      assert SourceKey(counted[0]) in KeysOf(counted, SourceKey);
    }
  }

  /** The three reports of `run`, in order, stopping at the first that cannot be written. */
  method WriteReports(targets: Buckets, tts: map<string, set<string>>, order: seq<string>, writable: set<string>,
                      ghost events: seq<TimingDataItem>)
    returns (ok: bool, byTime: seq<(string, seq<IncludeRow>)>, byTarget: seq<(string, seq<IncludeRow>)>,
             fileKeys: seq<string>, byFile: seq<FileRow>)
    requires targets == AllBuckets(Filter(events, Counted)) && Filter(events, Counted) != []
    ensures ok <==> ByTimeFileName in writable && ByTargetFileName in writable && ByFileFileName in writable
    ensures var counted := Filter(events, Counted);
      ok ==>
        |byTime| == 1 && RowsFor(byTime[0].1, Bucketize(counted), false, SizeSum(tts, order)) &&
        (forall t :: t in Firsts(byTarget) <==> t in KeysOf(counted, ItemTarget)) &&
        (forall k :: k in fileKeys <==> k in KeysOf(counted, SourceKey)) && |byFile| == |KeysOf(counted, SourceKey)|
  {
    assert AllOk(targets) && EmptyTargetName in targets by {
      CountedBuckets(events);
    }
    byTarget, fileKeys, byFile := [], [], [];
    ok, byTime := WriteSortedByTime(targets, tts, order, false, false, ByTimeFileName in writable);
    if !ok {
      return;
    }
    ok, byTarget := WriteSortedByTime(targets, tts, order, true, true, ByTargetFileName in writable);
    if !ok {
      return;
    }
    ok, fileKeys, byFile := WriteSortedByFile(targets, ByFileFileName in writable);
    CountedBuckets(events);
  }

  /** `run`: nothing is written when no include was found (the result is then `None`);
      otherwise the three reports are written in turn, and the result says whether all
      three were. */
  method Run(tds: seq<TimingData>, writable: set<string>)
    returns (r: Option<bool>, byTime: seq<(string, seq<IncludeRow>)>, byTarget: seq<(string, seq<IncludeRow>)>,
             fileKeys: seq<string>, byFile: seq<FileRow>)
    ensures var counted := Filter(Flatten(EventsOf(tds)), Counted);
      (r.None? <==> counted == []) &&
      (r == Some(true) <==> counted != [] && ByTimeFileName in writable && ByTargetFileName in writable && ByFileFileName in writable)
    ensures var counted := Filter(Flatten(EventsOf(tds)), Counted);
      r == Some(true) ==>
        |byTime| == 1 && RowsFor(byTime[0].1, Bucketize(counted), false, SizeSum(TraceSets(tds), Context.GroupOrder(tds))) &&
        (forall t :: t in Firsts(byTarget) <==> t in KeysOf(counted, ItemTarget)) &&
        (forall k :: k in fileKeys <==> k in KeysOf(counted, SourceKey)) && |byFile| == |KeysOf(counted, SourceKey)|
  {
    byTime, byTarget, fileKeys, byFile := [], [], [], [];
    ghost var events := Flatten(EventsOf(tds));
    var targets, tts, order := Gather(tds);
    CountedBuckets(events);
    var includeCount := 0;
    if EmptyTargetName in targets {
      includeCount := |targets[EmptyTargetName]|;
    }
    if includeCount == 0 {
      return None, byTime, byTarget, fileKeys, byFile;
    }
    var ok;
    ok, byTime, byTarget, fileKeys, byFile := WriteReports(targets, tts, order, writable, events);
    r := Some(ok);
  }
}
