/** The POSIX `os.path` functions the program uses, as pure string functions. */
module Paths {
  import opened Strings

  /** Index of the last occurrence of `c` in `s`, or -1 (`str.rfind`). */
  function LastIndex(s: string, c: char): (r: int)
    ensures -1 <= r < |s|
    ensures r >= 0 ==> s[r] == c
    ensures forall i :: r < i < |s| ==> s[i] != c
  {
    if s == [] then -1
    else if s[|s| - 1] == c then |s| - 1
    else LastIndex(s[..|s| - 1], c)
  }

  /** `rfind` gives -1 when the character does not occur. */
  lemma LastIndexAbsent(s: string, c: char)
    requires forall i :: 0 <= i < |s| ==> s[i] != c
    ensures LastIndex(s, c) == -1
  {
  }

  /** `rfind` gives the occurrence after which the character does not occur again. */
  lemma LastIndexAt(s: string, c: char, k: nat)
    requires k < |s| && s[k] == c
    requires forall i :: k < i < |s| ==> s[i] != c
    ensures LastIndex(s, c) == k
  {
  }

  predicate AllSlashes(s: string) {
    forall i :: 0 <= i < |s| ==> s[i] == '/'
  }

  function RStripSlashes(s: string): (r: string)
    ensures |r| <= |s| && r == s[..|r|]
  {
    if s != [] && s[|s| - 1] == '/' then RStripSlashes(s[..|s| - 1]) else s
  }

  /** `os.path.split(p)`: the tail is everything after the last slash; the head is everything
      before it, with trailing slashes removed unless it consists of slashes only. */
  function Split(p: string): (r: (string, string))
    ensures NoChar(r.1, '/')
  {
    var i := LastIndex(p, '/') + 1;
    var head := p[..i];
    (if head != [] && !AllSlashes(head) then RStripSlashes(head) else head, p[i..])
  }

  /** `os.path.basename(p)`. */
  function Basename(p: string): (r: string)
    ensures r == Split(p).1
  {
    p[LastIndex(p, '/') + 1..]
  }

  /** `os.path.join(a, b)` for two components. */
  function Join(a: string, b: string): string {
    if StartsWith(b, "/") then b
    else if a == [] || EndsWith(a, "/") then a + b
    else a + "/" + b
  }

  /** `os.path.splitext(p)`: the extension starts at the last dot of the last component,
      provided some character before that dot in the component is not a dot. */
  function SplitExt(p: string): (r: (string, string))
    ensures r.0 + r.1 == p
  {
    var sep := LastIndex(p, '/');
    var dot := LastIndex(p, '.');
    if dot > sep && exists j :: sep + 1 <= j < dot && p[j] != '.' then
      assert p[..dot] + p[dot..] == p;
      (p[..dot], p[dot..])
    else (p, "")
  }

  /** Splitting `q/c` where `q` does not end in a slash gives back `q` and `c`. */
  lemma SplitComponent(q: string, c: string)
    requires NoChar(c, '/')
    requires q != [] && q[|q| - 1] != '/'
    ensures Split(q + "/" + c) == (q, c)
  {
    var p := q + "/" + c;
    assert p[|q|] == '/';
    assert forall i :: |q| < i < |p| ==> p[i] == c[i - |q| - 1];
    assert LastIndex(p, '/') == |q|;
    assert p[..|q| + 1] == q + "/";
    assert p[|q| + 1..] == c;
    assert !AllSlashes(q + "/") by {
      assert (q + "/")[|q| - 1] == q[|q| - 1];
    }
    assert RStripSlashes(q + "/") == RStripSlashes(q) by {
      assert (q + "/")[..|q|] == q;
    }
  }

  /** The tail of `pre + c` is `c` when `pre` is empty or ends in a slash. */
  lemma SplitLastName(pre: string, c: string)
    requires NoChar(c, '/')
    requires pre == [] || pre[|pre| - 1] == '/'
    ensures Split(pre + c).1 == c
  {
    var p := pre + c;
    assert forall i :: |pre| <= i < |p| ==> p[i] == c[i - |pre|];
    if pre == [] {
      assert p == c;
    } else {
      assert p[|pre| - 1] == '/';
      assert LastIndex(p, '/') == |pre| - 1;
      assert p[|pre|..] == c;
    }
  }
}
