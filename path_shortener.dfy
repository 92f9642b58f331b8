/** Known long path prefixes and the short names that replace them in reports and in
    serialised traces. The dictionary is kept as a sequence of pairs in insertion order,
    which is the order Python iterates it in. */
module PathShortener {
  import opened Strings

  type Pairs = seq<(string, string)>

  predicate HasKey(ps: Pairs, k: string) {
    exists i :: 0 <= i < |ps| && ps[i].0 == k
  }

  /** No long path occurs twice, as in a dictionary. */
  predicate DistinctKeys(ps: Pairs) {
    forall i, j :: 0 <= i < j < |ps| ==> ps[i].0 != ps[j].0
  }

  /** The short name stored for `k`. */
  function Lookup(ps: Pairs, k: string): string
    requires HasKey(ps, k)
  {
    if ps[0].0 == k then ps[0].1
    else
      assert exists i :: 0 <= i < |ps[1..]| && ps[1..][i].0 == k by {
        var i :| 0 <= i < |ps| && ps[i].0 == k;
        assert ps[1..][i - 1].0 == k;
      }
      Lookup(ps[1..], k)
  }

  /** The dictionary after `add_shortened_path(k, v)`: unchanged if `k` is already a key,
      otherwise with `k -> v` appended. */
  function Added(ps: Pairs, k: string, v: string): (r: Pairs)
    ensures DistinctKeys(ps) ==> DistinctKeys(r)
    ensures HasKey(r, k)
  {
    if HasKey(ps, k) then ps
    else
      assert r: (ps + [(k, v)])[|ps|].0 == k;
      ps + [(k, v)]
  }

  /** Insert-once: the first short name given for a path is the one kept, and adding the
      same path again changes nothing. */
  lemma {:induction false} AddedKeepsFirst(ps: Pairs, k: string, v: string, w: string)
    ensures Lookup(Added(ps, k, v), k) == (if HasKey(ps, k) then Lookup(ps, k) else v)
    ensures Added(Added(ps, k, v), k, w) == Added(ps, k, v)
  {
    if !HasKey(ps, k) {
      LookupAppended(ps, k, v);
    }
  }

  lemma {:induction false} LookupAppended(ps: Pairs, k: string, v: string)
    requires !HasKey(ps, k)
    ensures HasKey(ps + [(k, v)], k) && Lookup(ps + [(k, v)], k) == v
  {
    assert (ps + [(k, v)])[|ps|].0 == k;
    if ps != [] {
      assert !HasKey(ps[1..], k) by {
        forall i | 0 <= i < |ps[1..]| ensures ps[1..][i].0 != k {
          assert ps[1..][i] == ps[i + 1];
        }
      }
      LookupAppended(ps[1..], k, v);
      assert (ps + [(k, v)])[1..] == ps[1..] + [(k, v)];
      assert ps[0].0 != k;
    }
  }

  predicate IsCandidate(path: string, kv: (string, string)) {
    StartsWith(path, kv.0)
  }

  function Replaced(path: string, kv: (string, string)): string {
    ReplaceAll(path, kv.0, kv.1)
  }

  /** The loop of `shorten_path` from a current best: a candidate's replacement is taken
      only when it is strictly shorter than the best so far. */
  function BestOver(path: string, ps: Pairs, best: string): string {
    if ps == [] then best
    else
      var next :=
        if IsCandidate(path, ps[0]) && |Replaced(path, ps[0])| < |best| then Replaced(path, ps[0])
        else best;
      BestOver(path, ps[1..], next)
  }

  /** The result is never longer than the starting best, nor than any candidate's replacement. */
  lemma {:induction false} BestOverMinimal(path: string, ps: Pairs, best: string)
    ensures |BestOver(path, ps, best)| <= |best|
    ensures forall i :: 0 <= i < |ps| && IsCandidate(path, ps[i]) ==>
      |BestOver(path, ps, best)| <= |Replaced(path, ps[i])|
  {
    if ps != [] {
      var next :=
        if IsCandidate(path, ps[0]) && |Replaced(path, ps[0])| < |best| then Replaced(path, ps[0])
        else best;
      BestOverMinimal(path, ps[1..], next);
      forall i | 0 <= i < |ps| && IsCandidate(path, ps[i])
        ensures |BestOver(path, ps, best)| <= |Replaced(path, ps[i])|
      {
        if i > 0 {
          assert ps[1..][i - 1] == ps[i];
        }
      }
    }
  }

  /** The result is the starting best, or the replacement of the earliest candidate among
      those of the resulting length, which is strictly shorter than the starting best. */
  lemma {:induction false} BestOverIsFirstShortest(path: string, ps: Pairs, best: string)
    ensures var r := BestOver(path, ps, best);
      r == best ||
      exists i :: 0 <= i < |ps| && IsCandidate(path, ps[i]) && r == Replaced(path, ps[i]) &&
        |r| < |best| &&
        forall j :: 0 <= j < i && IsCandidate(path, ps[j]) ==> |Replaced(path, ps[j])| > |r|
  {
    if ps != [] {
      var r := BestOver(path, ps, best);
      var taken := IsCandidate(path, ps[0]) && |Replaced(path, ps[0])| < |best|;
      var next := if taken then Replaced(path, ps[0]) else best;
      BestOverIsFirstShortest(path, ps[1..], next);
      if r != next {
        var i' :| 0 <= i' < |ps[1..]| && IsCandidate(path, ps[1..][i']) &&
          r == Replaced(path, ps[1..][i']) && |r| < |next| &&
          forall j :: 0 <= j < i' && IsCandidate(path, ps[1..][j]) ==>
            |Replaced(path, ps[1..][j])| > |r|;
        var i := i' + 1;
        assert ps[i] == ps[1..][i'];
        forall j | 0 <= j < i && IsCandidate(path, ps[j])
          ensures |Replaced(path, ps[j])| > |r|
        {
          if j > 0 {
            assert ps[j] == ps[1..][j - 1];
          }
        }
      } else if taken {
        assert IsCandidate(path, ps[0]) && r == Replaced(path, ps[0]);
      }
    }
  }

  class PathShortener {
    /** `will_shorten`. */
    const shorten: bool
    var paths: Pairs

    ghost predicate Valid()
      reads this
    {
      DistinctKeys(paths)
    }

    constructor (shorten: bool, paths: Pairs)
      requires DistinctKeys(paths)
      ensures Valid()
      ensures this.shorten == shorten && this.paths == paths
    {
      this.shorten := shorten;
      this.paths := paths;
    }

    /** `add_shortened_path`: true exactly when the long path was not known yet. */
    method AddShortenedPath(longPath: string, shortName: string) returns (added: bool)
      requires Valid()
      modifies this
      ensures Valid()
      ensures added <==> !HasKey(old(paths), longPath)
      ensures paths == Added(old(paths), longPath, shortName)
    {
      if exists i :: 0 <= i < |paths| && paths[i].0 == longPath {
        return false;
      }
      paths := paths + [(longPath, shortName)];
      return true;
    }

    /** `shortened_paths`: the pairs to substitute, none when shortening is off. */
    function ShortenedPaths(): (r: Pairs)
      reads this
      ensures !shorten ==> r == []
      ensures shorten ==> r == paths
    {
      if !shorten then [] else paths
    }

    /** `shorten_path`. */
    method ShortenPath(path: string) returns (best: string)
      ensures !shorten ==> best == path
      ensures shorten ==> best == BestOver(path, paths, path)
    {
      if !shorten {
        return path;
      }
      best := path;
      var i := 0;
      while i < |paths|
        invariant 0 <= i <= |paths|
        invariant BestOver(path, paths[i..], best) == BestOver(path, paths, path)
      {
        assert paths[i..][1..] == paths[i + 1..];
        var kv := paths[i];
        if StartsWith(path, kv.0) {
          var replaced := ReplaceAll(path, kv.0, kv.1);
          if |replaced| < |best| {
            best := replaced;
          }
        }
        i := i + 1;
      }
    }
  }
}
