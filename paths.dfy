/**
 * The parts of Node's `path` module (POSIX flavour) that the analyzer uses:
 * `join` of a directory and an entry name, `relative`, `basename` and
 * `extname`.
 */
module Paths {
  import opened Text

  /** Position of the last `c` in `s`, or -1 when there is none. */
  function LastIndex(s: string, c: char): (i: int)
    ensures -1 <= i < |s|
    ensures i >= 0 ==> s[i] == c
    ensures forall k :: i < k < |s| ==> s[k] != c
  {
    if s == [] then -1
    else if s[|s| - 1] == c then |s| - 1
    else LastIndex(s[..|s| - 1], c)
  }

  lemma {:induction false} LastIndexAfter(a: string, c: char, b: string)
    requires c !in b
    ensures LastIndex(a + [c] + b, c) == |a|
    decreases |b|
  {
    if b != [] {
      var s := a + [c] + b;
      assert s[..|s| - 1] == a + [c] + b[..|b| - 1];
      LastIndexAfter(a, c, b[..|b| - 1]);
    }
  }

  lemma {:induction false} LastIndexAbsent(s: string, c: char)
    requires c !in s
    ensures LastIndex(s, c) == -1
    decreases |s|
  {
    if s != [] {
      LastIndexAbsent(s[..|s| - 1], c);
    }
  }

  /** `p` without its trailing separators. */
  function TrimTrailingSlashes(p: string): (t: string)
    ensures t <= p
    ensures t == [] || t[|t| - 1] != '/'
    ensures forall k :: |t| <= k < |p| ==> p[k] == '/'
  {
    if p != [] && p[|p| - 1] == '/' then TrimTrailingSlashes(p[..|p| - 1]) else p
  }

  /** `path.basename(p)`: the last segment, trailing separators ignored. */
  function Basename(p: string): (b: string)
    ensures '/' !in b
  {
    var t := TrimTrailingSlashes(p);
    t[LastIndex(t, '/') + 1..]
  }

  /**
   * `path.extname` of a base name: from its last '.' to the end, or "" when
   * there is no '.', when the only '.' is the first character, or when the
   * name is "..".
   */
  function NameExtension(b: string): (e: string)
  {
    var d := LastIndex(b, '.');
    if d <= 0 || b == ".." then "" else b[d..]
  }

  /** `path.extname`: the extension of the base name of `p`. */
  function Extname(p: string): (e: string)
    ensures e == "" || (e[0] == '.' && '.' !in e[1..] && '/' !in e)
    ensures e != "" ==> |e| < |Basename(p)| && Basename(p)[|Basename(p)| - |e|..] == e
  {
    NameExtension(Basename(p))
  }

  /**
   * Node's rule, stated without positions of the last dot: the extension is
   * empty exactly when no character after the first of the base name is a
   * '.', or the base name is "..".
   */
  lemma {:induction false} ExtnameEmptyIff(p: string)
    ensures var b := Basename(p);
      Extname(p) == "" <==> (forall k :: 1 <= k < |b| ==> b[k] != '.') || b == ".."
  {
  }

  /** `path.join(dir, name)` for a directory without a trailing separator and a plain entry name. */
  function JoinPath(dir: string, name: string): string
  {
    dir + "/" + name
  }

  /** The base name of a joined path is the entry name. */
  lemma {:induction false} BasenameOfJoin(dir: string, name: string)
    requires name != [] && '/' !in name
    ensures Basename(JoinPath(dir, name)) == name
    ensures Extname(JoinPath(dir, name)) == Extname(name)
  {
    LastIndexAfter(dir, '/', name);
    LastIndexAbsent(name, '/');
  }

  /** Length of the longest common prefix of two segment lists. */
  function CommonPrefix(a: seq<string>, b: seq<string>): (k: nat)
    ensures k <= |a| && k <= |b| && a[..k] == b[..k]
    ensures k < |a| && k < |b| ==> a[k] != b[k]
  {
    if a == [] || b == [] || a[0] != b[0] then 0
    else
      var k := CommonPrefix(a[1..], b[1..]);
      assert a[..k + 1] == [a[0]] + a[1..][..k];
      assert b[..k + 1] == [b[0]] + b[1..][..k];
      k + 1
  }

  /**
   * `path.relative(from, to)` on '/'-separated segments: one ".." for each
   * segment of `from` past the common prefix, then the rest of `to`.
   */
  function Relative(from: string, to: string): string
  {
    var f := Split(from, '/');
    var t := Split(to, '/');
    var k := CommonPrefix(f, t);
    Join(seq(|f| - k, _ => "..") + t[k..], '/')
  }

  /** A path below `root` is reported relative to `root` as the part below it. */
  lemma {:induction false} RelativeOfChild(root: string, rel: string)
    ensures Relative(root, root + "/" + rel) == rel
  {
    SplitAppend(root, rel, '/');
    var f := Split(root, '/');
    var t := Split(root + "/" + rel, '/');
    assert t == f + Split(rel, '/');
    var k := CommonPrefix(f, t);
    assert k == |f|;
    assert t[k..] == Split(rel, '/');
    assert seq(|f| - k, _ => "..") + t[k..] == Split(rel, '/');
    JoinSplit(rel, '/');
  }
}
