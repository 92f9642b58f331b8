/** Grouping, summing and sorting as the tools use them: Python dictionaries filled in a
    loop, `sum`-style accumulators, and `sorted(..., reverse=True)`. */
module Aggregation {
  import opened TimingDataItem
  import opened TimingData

  /** The events of each trace. */
  function EventsOf(tds: seq<TimingData>): (r: seq<seq<TimingDataItem>>)
    reads tds
    ensures |r| == |tds| && forall i :: 0 <= i < |tds| ==> r[i] == tds[i].items
  {
    if tds == [] then [] else EventsOf(tds[..|tds| - 1]) + [tds[|tds| - 1].items]
  }

  /** All events, trace after trace. */
  function Flatten<T>(s: seq<seq<T>>): seq<T> {
    if s == [] then [] else Flatten(s[..|s| - 1]) + s[|s| - 1]
  }

  /** One more list flattened. */
  lemma FlattenSnoc<T>(s: seq<seq<T>>, i: int)
    requires 0 <= i < |s|
    ensures Flatten(s[..i + 1]) == Flatten(s[..i]) + s[i]
  {
    assert s[..i + 1][..i] == s[..i];
  }

  lemma {:induction false} FlattenAppend<T>(a: seq<seq<T>>, b: seq<seq<T>>)
    ensures Flatten(a + b) == Flatten(a) + Flatten(b)
    decreases |b|
  {
    if b == [] {
      assert a + b == a;
    } else {
      assert (a + b)[..|a + b| - 1] == a + b[..|b| - 1];
      FlattenAppend(a, b[..|b| - 1]);
    }
  }

  function Duration(e: TimingDataItem): int {
    e.duration
  }

  function ItemTarget(e: TimingDataItem): string {
    e.target
  }

  function Sum<T>(s: seq<T>, w: T -> int): int {
    if s == [] then 0 else Sum(s[..|s| - 1], w) + w(s[|s| - 1])
  }

  lemma {:induction false} SumAppend<T>(a: seq<T>, b: seq<T>, w: T -> int)
    ensures Sum(a + b, w) == Sum(a, w) + Sum(b, w)
    decreases |b|
  {
    if b == [] {
      assert a + b == a;
    } else {
      assert (a + b)[..|a + b| - 1] == a + b[..|b| - 1];
      SumAppend(a, b[..|b| - 1], w);
    }
  }

  /** The elements that pass `p`, in order. */
  function Filter<T>(s: seq<T>, p: T -> bool): seq<T> {
    if s == [] then []
    else Filter(s[..|s| - 1], p) + (if p(s[|s| - 1]) then [s[|s| - 1]] else [])
  }

  /** Filtering keeps exactly the elements that pass, each as often as it occurs. */
  lemma {:induction false} FilterMembers<T>(s: seq<T>, p: T -> bool)
    ensures forall x :: x in Filter(s, p) ==> x in s && p(x)
    ensures forall x :: x in s ==> multiset(Filter(s, p))[x] == (if p(x) then multiset(s)[x] else 0)
  {
    if s != [] {
      var init := s[..|s| - 1];
      assert s == init + [s[|s| - 1]];
      FilterMembers(init, p);
    }
  }

  /** An element survives filtering exactly when it occurs and passes. */
  lemma FilterHas<T>(s: seq<T>, p: T -> bool)
    ensures forall x :: x in Filter(s, p) <==> x in s && p(x)
  {
    FilterMembers(s, p);
    forall x | x in s && p(x) ensures x in Filter(s, p) {
      assert multiset(s)[x] > 0;
    }
  }

  /** The elements whose key is `k`, in order. */
  function Having<T>(s: seq<T>, key: T -> string, k: string): seq<T> {
    if s == [] then []
    else Having(s[..|s| - 1], key, k) + (if key(s[|s| - 1]) == k then [s[|s| - 1]] else [])
  }

  /** The elements with key `k` are kept, each as often as it occurs, and no other. */
  lemma {:induction false} HavingMembers<T>(s: seq<T>, key: T -> string, k: string)
    ensures forall x :: x in Having(s, key, k) ==> x in s && key(x) == k
    ensures forall x :: x in s ==> multiset(Having(s, key, k))[x] == (if key(x) == k then multiset(s)[x] else 0)
  {
    if s != [] {
      var init := s[..|s| - 1];
      assert s == init + [s[|s| - 1]];
      HavingMembers(init, key, k);
    }
  }

  function KeysOf<T>(s: seq<T>, key: T -> string): set<string> {
    set i | 0 <= i < |s| :: key(s[i])
  }

  lemma KeysOfAppend<T>(s: seq<T>, x: T, key: T -> string)
    ensures KeysOf(s + [x], key) == KeysOf(s, key) + {key(x)}
  {
    var t := s + [x];
    forall k | k in KeysOf(t, key) ensures k in KeysOf(s, key) + {key(x)} {
      var i :| 0 <= i < |t| && key(t[i]) == k;
      if i < |s| {
        assert t[i] == s[i];
      }
    }
    forall k | k in KeysOf(s, key) ensures k in KeysOf(t, key) {
      var i :| 0 <= i < |s| && key(s[i]) == k;
      assert t[i] == s[i];
    }
    assert t[|s|] == x;
  }

  lemma {:induction false} HavingAbsent<T>(s: seq<T>, key: T -> string, k: string)
    requires k !in KeysOf(s, key)
    ensures Having(s, key, k) == []
  {
    if s != [] {
      var init := s[..|s| - 1];
      assert s == init + [s[|s| - 1]];
      KeysOfAppend(init, s[|s| - 1], key);
      HavingAbsent(init, key, k);
    }
  }

  /** A dictionary of lists filled by appending each element under its key. */
  function GroupBy<T>(s: seq<T>, key: T -> string): map<string, seq<T>> {
    if s == [] then map[]
    else
      var g := GroupBy(s[..|s| - 1], key);
      var x := s[|s| - 1];
      g[key(x) := (if key(x) in g then g[key(x)] else []) + [x]]
  }

  /** The grouping has an entry for every key that occurs, and nothing else, and the entry
      for a key holds the elements with that key in input order. */
  lemma {:induction false} GroupByHaving<T>(s: seq<T>, key: T -> string)
    ensures GroupBy(s, key).Keys == KeysOf(s, key)
    ensures forall k :: k in GroupBy(s, key) ==> GroupBy(s, key)[k] == Having(s, key, k)
  {
    if s != [] {
      var init := s[..|s| - 1];
      var x := s[|s| - 1];
      assert s == init + [x];
      GroupByHaving(init, key);
      KeysOfAppend(init, x, key);
      if key(x) !in KeysOf(init, key) {
        HavingAbsent(init, key, key(x));
      }
    }
  }

  /** A dictionary of running totals: each element adds its weight under its key. */
  function SumByKey<T>(s: seq<T>, key: T -> string, w: T -> int): map<string, int> {
    if s == [] then map[]
    else
      var m := SumByKey(s[..|s| - 1], key, w);
      var x := s[|s| - 1];
      m[key(x) := (if key(x) in m then m[key(x)] else 0) + w(x)]
  }

  /** The running total of a key is the sum of the weights of the elements with that key. */
  lemma {:induction false} SumByKeyIsGroupSum<T>(s: seq<T>, key: T -> string, w: T -> int)
    ensures SumByKey(s, key, w).Keys == KeysOf(s, key)
    ensures forall k :: k in SumByKey(s, key, w) ==> SumByKey(s, key, w)[k] == Sum(Having(s, key, k), w)
  {
    SumByKeyKeys(s, key, w);
    forall k | k in SumByKey(s, key, w) ensures SumByKey(s, key, w)[k] == Sum(Having(s, key, k), w) {
      SumByKeyAt(s, key, w, k);
    }
  }

  lemma {:induction false} SumByKeyKeys<T>(s: seq<T>, key: T -> string, w: T -> int)
    ensures SumByKey(s, key, w).Keys == KeysOf(s, key)
  {
    if s != [] {
      var init := s[..|s| - 1];
      assert s == init + [s[|s| - 1]];
      SumByKeyKeys(init, key, w);
      KeysOfAppend(init, s[|s| - 1], key);
    }
  }

  lemma {:induction false} SumByKeyAt<T>(s: seq<T>, key: T -> string, w: T -> int, k: string)
    ensures k in SumByKey(s, key, w) ==> SumByKey(s, key, w)[k] == Sum(Having(s, key, k), w)
    ensures k !in SumByKey(s, key, w) ==> Sum(Having(s, key, k), w) == 0
  {
    if s != [] {
      var init := s[..|s| - 1];
      var x := s[|s| - 1];
      SumByKeyAt(init, key, w, k);
      var tail := if key(x) == k then [x] else [];
      assert Having(s, key, k) == Having(init, key, k) + tail;
      SumAppend(Having(init, key, k), tail, w);
      if key(x) == k {
        assert tail[..0] == [];
      }
    }
  }

  /** The values of `m` at `keys`, a missing key counting 0. */
  function SumOver(m: map<string, int>, keys: seq<string>): int {
    if keys == [] then 0 else SumOver(m, keys[..|keys| - 1]) + (if keys[|keys| - 1] in m then m[keys[|keys| - 1]] else 0)
  }

  lemma {:induction false} SumOverBump(m: map<string, int>, keys: seq<string>, k: string, d: int)
    requires forall i, j :: 0 <= i < j < |keys| ==> keys[i] != keys[j]
    ensures SumOver(m[k := (if k in m then m[k] else 0) + d], keys) ==
      SumOver(m, keys) + (if k in keys then d else 0)
  {
    if keys != [] {
      var init := keys[..|keys| - 1];
      SumOverBump(m, init, k, d);
      if keys[|keys| - 1] == k {
        assert k !in init;
      }
      assert keys == init + [keys[|keys| - 1]];
    }
  }

  /** Summing the per-key totals over all keys gives the total of everything. */
  lemma {:induction false} SumOverSumByKey<T>(s: seq<T>, key: T -> string, w: T -> int, keys: seq<string>)
    requires forall i, j :: 0 <= i < j < |keys| ==> keys[i] != keys[j]
    requires forall i :: 0 <= i < |s| ==> key(s[i]) in keys
    ensures SumOver(SumByKey(s, key, w), keys) == Sum(s, w)
  {
    if s == [] {
      EmptySumOver(keys);
    } else {
      var init := s[..|s| - 1];
      assert forall i :: 0 <= i < |init| ==> init[i] == s[i];
      SumOverSumByKey(init, key, w, keys);
      SumOverBump(SumByKey(init, key, w), keys, key(s[|s| - 1]), w(s[|s| - 1]));
    }
  }

  lemma {:induction false} EmptySumOver(keys: seq<string>)
    ensures SumOver(map[], keys) == 0
  {
    if keys != [] {
      EmptySumOver(keys[..|keys| - 1]);
    }
  }

  // ---- one more element, as a loop body sees it ----

  /** A prefix one element longer. */
  lemma PrefixSnoc<T>(s: seq<T>, i: int)
    requires 0 <= i < |s|
    ensures s[..i + 1] == s[..i] + [s[i]]
  {
  }

  /** One element more between a fixed head and tail. */
  lemma SnocBeforeTail<T>(a: seq<T>, x: T, rest: seq<T>)
    ensures a + ([x] + rest) == a + [x] + rest
  {
  }

  /** A prefix one element longer, after a fixed head. */
  lemma AppendPrefixSnoc<T>(a: seq<T>, s: seq<T>, j: int)
    requires 0 <= j < |s|
    ensures a + s[..j] + [s[j]] == a + s[..j + 1]
  {
    assert s[..j + 1] == s[..j] + [s[j]];
  }

  lemma FilterSnoc<T>(s: seq<T>, x: T, p: T -> bool)
    ensures Filter(s + [x], p) == if p(x) then Filter(s, p) + [x] else Filter(s, p)
  {
    var ys := s + [x];
    assert ys[..|ys| - 1] == s && ys[|ys| - 1] == x;
    assert Filter(s, p) + [] == Filter(s, p);
  }

  lemma SumSnoc<T>(s: seq<T>, x: T, w: T -> int)
    ensures Sum(s + [x], w) == Sum(s, w) + w(x)
  {
    var ys := s + [x];
    assert ys[..|ys| - 1] == s && ys[|ys| - 1] == x;
  }

  lemma HavingSnoc<T>(s: seq<T>, x: T, key: T -> string, k: string)
    ensures Having(s + [x], key, k) == if key(x) == k then Having(s, key, k) + [x] else Having(s, key, k)
  {
    var ys := s + [x];
    assert ys[..|ys| - 1] == s && ys[|ys| - 1] == x;
    assert Having(s, key, k) + [] == Having(s, key, k);
  }

  lemma SumByKeySnoc<T>(s: seq<T>, x: T, key: T -> string, w: T -> int)
    ensures var m := SumByKey(s, key, w);
      SumByKey(s + [x], key, w) == m[key(x) := (if key(x) in m then m[key(x)] else 0) + w(x)]
  {
    var ys := s + [x];
    assert ys[..|ys| - 1] == s && ys[|ys| - 1] == x;
    var m := SumByKey(s, key, w);
    assert SumByKey(ys, key, w) == m[key(x) := (if key(x) in m then m[key(x)] else 0) + w(x)];
  }

  lemma GroupBySnoc<T>(s: seq<T>, x: T, key: T -> string)
    ensures var g := GroupBy(s, key);
      GroupBy(s + [x], key) == g[key(x) := if key(x) in g then g[key(x)] + [x] else [x]]
  {
    var ys := s + [x];
    assert ys[..|ys| - 1] == s && ys[|ys| - 1] == x;
    assert [] + [x] == [x];
  }

  // ---- sorted(..., reverse=True) ----

  predicate SortedDesc<T>(s: seq<T>, key: T -> int) {
    forall i, j :: 0 <= i < j < |s| ==> key(s[i]) >= key(s[j])
  }

  /** `x` goes after every element whose key is at least its own, which keeps equal keys in
      input order. */
  function InsertDesc<T>(s: seq<T>, x: T, key: T -> int): (r: seq<T>)
    ensures multiset(r) == multiset(s) + multiset{x}
    ensures SortedDesc(s, key) ==> SortedDesc(r, key)
  {
    if s == [] then [x]
    else if key(s[|s| - 1]) >= key(x) then s + [x]
    else
      var init := s[..|s| - 1];
      var last := s[|s| - 1];
      assert s == init + [last];
      var r := InsertDesc(init, x, key) + [last];
      assert SortedDesc(s, key) ==> SortedDesc(r, key) by {
        if SortedDesc(s, key) {
          var r0 := InsertDesc(init, x, key);
          assert SortedDesc(init, key);
          forall y | y in r0 ensures key(y) >= key(last) {
            assert y in multiset(r0);
            assert y in multiset(init) || y == x;
          }
          SnocSorted(r0, last, key);
        }
      }
      r
  }

  /** An element no larger than all before it keeps a descending sequence descending. */
  lemma SnocSorted<T>(s: seq<T>, x: T, key: T -> int)
    requires SortedDesc(s, key) && forall y :: y in s ==> key(y) >= key(x)
    ensures SortedDesc(s + [x], key)
  {
    var r := s + [x];
    forall i, j | 0 <= i < j < |r| ensures key(r[i]) >= key(r[j]) {
      assert r[i] == s[i];
      if j == |s| {
        assert s[i] in s;
      }
    }
  }

  /** `sorted(s, key=key, reverse=True)`: the elements in descending order of the key. */
  function SortDesc<T>(s: seq<T>, key: T -> int): (r: seq<T>)
    ensures multiset(r) == multiset(s) && |r| == |s|
    ensures SortedDesc(r, key)
  {
    if s == [] then []
    else
      var init := s[..|s| - 1];
      var last := s[|s| - 1];
      assert s == init + [last];
      assert multiset(s) == multiset(init) + multiset{last};
      var sorted := SortDesc(init, key);
      InsertDesc(sorted, last, key)
  }

  /** `s[:n]`. */
  function Take<T>(s: seq<T>, n: nat): (r: seq<T>)
    ensures |r| == (if |s| < n then |s| else n) && r == s[..|r|]
  {
    if |s| < n then s else s[..n]
  }

  /** Projection onto the first component. */
  function Firsts<A, B>(s: seq<(A, B)>): (r: seq<A>)
    ensures |r| == |s| && forall i :: 0 <= i < |s| ==> r[i] == s[i].0
  {
    if s == [] then [] else Firsts(s[..|s| - 1]) + [s[|s| - 1].0]
  }

  /** `[f(x) for x in s]`. */
  function MapSeq<A, B>(s: seq<A>, f: A -> B): (r: seq<B>)
    ensures |r| == |s| && forall i :: 0 <= i < |s| ==> r[i] == f(s[i])
  {
    if s == [] then [] else MapSeq(s[..|s| - 1], f) + [f(s[|s| - 1])]
  }

  lemma MapSeqSnoc<A, B>(s: seq<A>, i: int, f: A -> B)
    requires 0 <= i < |s|
    ensures MapSeq(s[..i + 1], f) == MapSeq(s[..i], f) + [f(s[i])]
  {
    assert s[..i + 1][..i] == s[..i];
  }
}
