/**
 * `buildDirectoryTree` and its inner `stringifyTree` (src/analyzer.ts): the
 * relative paths of the kept files are inserted, segment by segment, into
 * nested plain objects, and the nesting is drawn as ASCII lines.
 *
 * A directory is an object whose own properties are its children in
 * creation order; a file is the value `null`.
 */
module DirTree {
  import opened Wrappers
  import opened Text
  import opened JsObject

  /** The value stored under a name: `null` for a file, an object for a directory. */
  datatype Node = Leaf | Dir(children: Props<Node>)

  /** Every object in the tree has distinct keys. */
  predicate WellFormed(t: Props<Node>)
    decreases t
  {
    && DistinctKeys(t)
    && forall i :: 0 <= i < |t| ==> t[i].1.Dir? ==>
         assert t[i] in t && t[i].1 < t[i];
         WellFormed(t[i].1.children)
  }

  // ---------------------------------------------------------------------
  // Inserting one path

  /** The children of the directory under `name`; none when `name` holds a file or nothing. */
  function Subdir(t: Props<Node>, name: string): Props<Node>
  {
    match Lookup<Node>(t, name)
    case Some(Dir(c)) => c
    case _ => []
  }

  /**
   * The loop over the segments of one path: every segment but the last
   * names a directory, reused when the name holds a directory and created
   * (in place of a file, or new) otherwise; the last segment is set to
   * `null`, in place of whatever the name held. Names are looked up as
   * own properties only.
   */
  function Insert(t: Props<Node>, parts: seq<string>): Props<Node>
    requires parts != []
    decreases |parts|
  {
    if |parts| == 1 then Put(t, parts[0], Leaf)
    else
      var sub := Subdir(t, parts[0]);
      Put(t, parts[0], Dir(Insert(sub, parts[1..])))
  }

  /** Following the names `q` from `t` leads through directories to a file. */
  predicate Has(t: Props<Node>, q: seq<string>)
    decreases |q|
  {
    q != [] &&
    match Lookup<Node>(t, q[0])
    case None => false
    case Some(Leaf) => |q| == 1
    case Some(Dir(c)) => |q| > 1 && Has(c, q[1..])
  }

  /**
   * What an insertion leaves in the tree: the inserted path, and every
   * path that was there unless one of the two is a proper prefix of the
   * other (a file written over a directory, or a directory written over a
   * file).
   */
  lemma {:induction false} InsertExact(t: Props<Node>, parts: seq<string>, q: seq<string>)
    requires parts != []
    ensures Has(Insert(t, parts), q) <==> q == parts || (Has(t, q) && !(q < parts) && !(parts < q))
    decreases |parts|
  {
    var r := Insert(t, parts);
    if q != [] {
      if |parts| == 1 {
        PutLookup(t, parts[0], Leaf, q[0]);
        if q[0] == parts[0] && |q| == 1 {
          assert q == parts;
        }
      } else {
        var sub := Subdir(t, parts[0]);
        var inner := Insert(sub, parts[1..]);
        PutLookup(t, parts[0], Dir(inner), q[0]);
        if q[0] == parts[0] {
          if |q| > 1 {
            InsertExact(sub, parts[1..], q[1..]);
            assert q == [q[0]] + q[1..] && parts == [parts[0]] + parts[1..];
            assert q[1..] == parts[1..] <==> q == parts;
            assert q[1..] < parts[1..] <==> q < parts;
            assert parts[1..] < q[1..] <==> parts < q;
            if Has(sub, q[1..]) {
              assert Lookup(t, parts[0]).Some? && Lookup(t, parts[0]).value == Dir(sub);
            }
          } else {
            assert q < parts;
          }
        }
      }
    }
  }

  /** An inserted path is in the tree. */
  lemma {:induction false} InsertHas(t: Props<Node>, parts: seq<string>)
    requires parts != []
    ensures Has(Insert(t, parts), parts)
  {
    InsertExact(t, parts, parts);
  }

  /** Inserting the same path twice gives the same tree as inserting it once. */
  lemma {:induction false} InsertIdempotent(t: Props<Node>, parts: seq<string>)
    requires parts != []
    ensures Insert(Insert(t, parts), parts) == Insert(t, parts)
    decreases |parts|
  {
    var k := parts[0];
    if |parts| == 1 {
      PutPut(t, k, Leaf, Leaf);
    } else {
      var sub := Subdir(t, k);
      var inner := Insert(sub, parts[1..]);
      PutLookup(t, k, Dir(inner), k);
      InsertIdempotent(sub, parts[1..]);
      PutPut(t, k, Dir(inner), Dir(inner));
    }
  }

  /** Insertion keeps every object's keys distinct: a name is one node. */
  lemma {:induction false} InsertWellFormed(t: Props<Node>, parts: seq<string>)
    requires parts != [] && WellFormed(t)
    ensures WellFormed(Insert(t, parts))
    decreases |parts|
  {
    var k := parts[0];
    var v: Node;
    if |parts| == 1 {
      v := Leaf;
    } else {
      var sub := Subdir(t, k);
      if Lookup(t, k).Some? && Lookup(t, k).value.Dir? {
        var m :| 0 <= m < |t| && t[m] == (k, Dir(sub));
      }
      assert WellFormed(sub);
      InsertWellFormed(sub, parts[1..]);
      v := Dir(Insert(sub, parts[1..]));
    }
    var r := Put(t, k, v);
    assert r == Insert(t, parts);
    PutDistinct(t, k, v);
    forall i | 0 <= i < |r| && r[i].1.Dir? ensures WellFormed(r[i].1.children) {
      PutMembers(t, k, v, r[i]);
      if r[i] != (k, v) {
        var m :| 0 <= m < |t| && t[m] == r[i];
      }
    }
  }

  // ---------------------------------------------------------------------
  // Building the tree of a list of paths

  /** The segments of a relative path: `filePath.split(path.sep)`. */
  function Segments(path: string): (parts: seq<string>)
    ensures parts != []
  {
    Split(path, '/')
  }

  /** The tree after inserting each path in turn into `{}`. */
  function Build(paths: seq<string>): Props<Node>
  {
    if paths == [] then []
    else Insert(Build(paths[..|paths| - 1]), Segments(paths[|paths| - 1]))
  }

  /** No path's segments are a proper prefix of another's, as in a real scan. */
  predicate PrefixFree(paths: seq<string>)
  {
    forall i, j :: 0 <= i < |paths| && 0 <= j < |paths| ==> !(Segments(paths[i]) < Segments(paths[j]))
  }

  predicate Listed(paths: seq<string>, q: seq<string>)
  {
    exists i :: 0 <= i < |paths| && Segments(paths[i]) == q
  }

  lemma {:induction false} ListedSnoc(paths: seq<string>, q: seq<string>)
    requires paths != []
    ensures Listed(paths, q) <==> Listed(paths[..|paths| - 1], q) || Segments(paths[|paths| - 1]) == q
  {
    var init := paths[..|paths| - 1];
    if Listed(paths, q) && Segments(paths[|paths| - 1]) != q {
      var i :| 0 <= i < |paths| && Segments(paths[i]) == q;
      assert init[i] == paths[i];
    }
    if Listed(init, q) {
      var i :| 0 <= i < |init| && Segments(init[i]) == q;
      assert paths[i] == init[i];
    }
  }

  lemma {:induction false} PrefixFreeInit(paths: seq<string>)
    requires paths != [] && PrefixFree(paths)
    ensures PrefixFree(paths[..|paths| - 1])
  {
    var init := paths[..|paths| - 1];
    forall i, j | 0 <= i < |init| && 0 <= j < |init|
      ensures !(Segments(init[i]) < Segments(init[j]))
    {
      assert init[i] == paths[i] && init[j] == paths[j];
    }
  }

  /** The tree of a prefix-free list of paths holds exactly those paths. */
  lemma {:induction false} BuildHas(paths: seq<string>, q: seq<string>)
    requires PrefixFree(paths)
    ensures Has(Build(paths), q) <==> Listed(paths, q)
    decreases |paths|
  {
    if paths != [] {
      var n := |paths| - 1;
      var init, last := paths[..n], Segments(paths[n]);
      PrefixFreeInit(paths);
      BuildHas(init, q);
      InsertExact(Build(init), last, q);
      ListedSnoc(paths, q);
      if Listed(init, q) && q != last {
        var i :| 0 <= i < |init| && Segments(init[i]) == q;
        assert init[i] == paths[i];
        assert !(Segments(paths[i]) < Segments(paths[n])) && !(Segments(paths[n]) < Segments(paths[i]));
      }
    }
  }

  /** The outer loop of `buildDirectoryTree`: one insertion per path. */
  method BuildTree(relativePaths: seq<string>) returns (tree: Props<Node>)
    ensures tree == Build(relativePaths)
  {
    tree := [];
    var i := 0;
    while i < |relativePaths|
      invariant 0 <= i <= |relativePaths|
      invariant tree == Build(relativePaths[..i])
    {
      var parts := Segments(relativePaths[i]);
      assert relativePaths[..i + 1][..i] == relativePaths[..i];
      tree := Insert(tree, parts);
      i := i + 1;
    }
    assert relativePaths[..i] == relativePaths;
  }

  // ---------------------------------------------------------------------
  // Drawing the tree

  const Tee := "├── "
  const Corner := "└── "
  const Bar := "│   "
  const Blank := "    "

  /** The lines for the entries `es` of the object `t`, the last of `es` being the last of `t`. */
  function RenderList(t: Props<Node>, es: Props<Node>, prefix: string): seq<string>
    requires forall x :: x in es ==> x in t
    decreases t, 0, |es|
  {
    if es == [] then []
    else
      assert es[0] in t && es[0].1 < es[0];
      var key, value := es[0].0, es[0].1;
      var isLast := |es| == 1;
      var line := prefix + (if isLast then Corner else Tee) + key;
      var below := if value.Dir? then Render(value.children, prefix + (if isLast then Blank else Bar)) else [];
      [line] + below + RenderList(t, es[1..], prefix)
  }

  /** The lines `stringifyTree(node, prefix)` writes, each without its "\n". */
  function Render(t: Props<Node>, prefix: string): seq<string>
    decreases t, 1
  {
    forall x | x in Entries(t) ensures x in t {
      EntriesMember(t, x);
    }
    RenderList(t, Entries(t), prefix)
  }

  /** The number of names in a tree, counting every level. */
  function Size(t: Props<Node>): nat
    decreases t
  {
    if t == [] then 0
    else
      assert t[0] in t && t[0].1 < t[0];
      1 + (if t[0].1.Dir? then Size(t[0].1.children) else 0) + Size(t[1..])
  }

  lemma {:induction false} SizeAppend(a: Props<Node>, b: Props<Node>)
    ensures Size(a + b) == Size(a) + Size(b)
    decreases |a|
  {
    if a != [] {
      assert (a + b)[0] == a[0] && (a + b)[1..] == a[1..] + b;
      SizeAppend(a[1..], b);
    } else {
      assert a + b == b;
    }
  }

  /** Taking the same element out of two permutations of each other leaves permutations. */
  lemma RemoveOne<T>(a: seq<T>, b: seq<T>, m: nat)
    requires a != [] && m < |b| && b[m] == a[0]
    requires multiset(a) == multiset(b)
    ensures multiset(a[1..]) == multiset(b[..m] + b[m + 1..])
  {
    var x := a[0];
    assert a == [x] + a[1..];
    assert b == b[..m] + [x] + b[m + 1..];
    assert multiset(a[1..]) == multiset(a) - multiset{x};
    assert multiset(b[..m] + b[m + 1..]) == multiset(b) - multiset{x};
  }

  /** The size does not depend on the order of the entries. */
  lemma {:induction false} SizePermutation(a: Props<Node>, b: Props<Node>)
    requires multiset(a) == multiset(b)
    ensures Size(a) == Size(b)
    decreases |a|
  {
    if a != [] {
      var x := a[0];
      assert x in multiset(b);
      var m :| 0 <= m < |b| && b[m] == x;
      var rest := b[..m] + b[m + 1..];
      RemoveOne(a, b, m);
      assert b == b[..m] + ([x] + b[m + 1..]);
      SizePermutation(a[1..], rest);
      SizeAppend(b[..m], [x] + b[m + 1..]);
      SizeAppend(b[..m], b[m + 1..]);
      assert ([x] + b[m + 1..])[1..] == b[m + 1..];
    } else {
      assert b == [];
    }
  }

  /** One line per name: the drawing of a tree has as many lines as the tree has names. */
  lemma {:induction false} RenderSize(t: Props<Node>, prefix: string)
    ensures |Render(t, prefix)| == Size(t)
    decreases t, 1
  {
    forall x | x in Entries(t) ensures x in t {
      EntriesMember(t, x);
    }
    RenderListSize(t, Entries(t), prefix);
    EntriesPermutes(t);
    SizePermutation(Entries(t), t);
  }

  lemma {:induction false} RenderListSize(t: Props<Node>, es: Props<Node>, prefix: string)
    requires forall x :: x in es ==> x in t
    ensures |RenderList(t, es, prefix)| == Size(es)
    decreases t, 0, |es|
  {
    if es != [] {
      assert es[0] in t && es[0].1 < es[0];
      var value := es[0].1;
      var isLast := |es| == 1;
      if value.Dir? {
        RenderSize(value.children, prefix + (if isLast then Blank else Bar));
      }
      RenderListSize(t, es[1..], prefix);
    }
  }

  /** Every line of a drawing starts with its prefix. */
  lemma {:induction false} RenderPrefix(t: Props<Node>, prefix: string)
    ensures forall k :: 0 <= k < |Render(t, prefix)| ==> prefix <= Render(t, prefix)[k]
    decreases t, 1
  {
    forall x | x in Entries(t) ensures x in t {
      EntriesMember(t, x);
    }
    RenderListPrefix(t, Entries(t), prefix);
  }

  lemma {:induction false} RenderListPrefix(t: Props<Node>, es: Props<Node>, prefix: string)
    requires forall x :: x in es ==> x in t
    ensures forall k :: 0 <= k < |RenderList(t, es, prefix)| ==> prefix <= RenderList(t, es, prefix)[k]
    decreases t, 0, |es|
  {
    if es != [] {
      assert es[0] in t && es[0].1 < es[0];
      var key, value := es[0].0, es[0].1;
      var isLast := |es| == 1;
      var line := prefix + (if isLast then Corner else Tee) + key;
      var pad := if isLast then Blank else Bar;
      var below := if value.Dir? then Render(value.children, prefix + pad) else [];
      if value.Dir? {
        RenderPrefix(value.children, prefix + pad);
      }
      RenderListPrefix(t, es[1..], prefix);
      var rest := RenderList(t, es[1..], prefix);
      var all := [line] + below + rest;
      assert RenderList(t, es, prefix) == all;
      forall k | 0 <= k < |all| ensures prefix <= all[k] {
        if k == 0 {
          assert all[0] == prefix + ((if isLast then Corner else Tee) + key);
        } else if k < 1 + |below| {
          assert all[k] == below[k - 1];
          assert (prefix + pad) <= below[k - 1];
        } else {
          assert all[k] == rest[k - 1 - |below|];
        }
      }
    }
  }

  /** No name anywhere in the tree holds a newline. */
  predicate NoNewlines(t: Props<Node>)
    decreases t
  {
    forall i :: 0 <= i < |t| ==>
      && '\n' !in t[i].0
      && (t[i].1.Dir? ==>
            assert t[i] in t && t[i].1 < t[i];
            NoNewlines(t[i].1.children))
  }

  /** A drawing whose prefix and names hold no newline has none inside its lines. */
  lemma {:induction false} RenderNoNewline(t: Props<Node>, prefix: string)
    requires NoNewlines(t) && '\n' !in prefix
    ensures forall k :: 0 <= k < |Render(t, prefix)| ==> '\n' !in Render(t, prefix)[k]
    decreases t, 1
  {
    forall x | x in Entries(t) ensures x in t {
      EntriesMember(t, x);
    }
    RenderListNoNewline(t, Entries(t), prefix);
  }

  lemma {:induction false} RenderListNoNewline(t: Props<Node>, es: Props<Node>, prefix: string)
    requires forall x :: x in es ==> x in t
    requires NoNewlines(t) && '\n' !in prefix
    ensures forall k :: 0 <= k < |RenderList(t, es, prefix)| ==> '\n' !in RenderList(t, es, prefix)[k]
    decreases t, 0, |es|
  {
    if es != [] {
      assert es[0] in t && es[0].1 < es[0];
      var m :| 0 <= m < |t| && t[m] == es[0];
      var key, value := es[0].0, es[0].1;
      var isLast := |es| == 1;
      var glyph := if isLast then Corner else Tee;
      var line := prefix + glyph + key;
      var pad := if isLast then Blank else Bar;
      var below := if value.Dir? then Render(value.children, prefix + pad) else [];
      if value.Dir? {
        RenderNoNewline(value.children, prefix + pad);
      }
      RenderListNoNewline(t, es[1..], prefix);
      var rest := RenderList(t, es[1..], prefix);
      var all := [line] + below + rest;
      assert RenderList(t, es, prefix) == all;
      assert '\n' !in glyph;
      forall k | 0 <= k < |all| ensures '\n' !in all[k] {
        if k == 0 {
          assert all[0] == line;
        } else if k < 1 + |below| {
          assert all[k] == below[k - 1];
        } else {
          assert all[k] == rest[k - 1 - |below|];
        }
      }
    }
  }

  /** The text `stringifyTree` returns holds one "\n" per name in the tree. */
  lemma {:induction false} RenderNewlines(t: Props<Node>, prefix: string)
    requires NoNewlines(t) && '\n' !in prefix
    ensures Count(Unlines(Render(t, prefix)), '\n') == Size(t)
  {
    RenderNoNewline(t, prefix);
    UnlinesNewlines(Render(t, prefix));
    RenderSize(t, prefix);
  }

  /** A line that draws a name directly under `prefix`, not deeper. */
  predicate IsTopLine(prefix: string, line: string)
  {
    |line| > |prefix| && line[..|prefix|] == prefix && (line[|prefix|] == Tee[0] || line[|prefix|] == Corner[0])
  }

  function TopLines(prefix: string, lines: seq<string>): seq<string>
  {
    if lines == [] then []
    else (if IsTopLine(prefix, lines[0]) then [lines[0]] else []) + TopLines(prefix, lines[1..])
  }

  /** One line per key, in order, drawn with a corner for the last key and a tee for the others. */
  function KeyLines(prefix: string, keys: seq<string>): seq<string>
  {
    if keys == [] then []
    else [prefix + (if |keys| == 1 then Corner else Tee) + keys[0]] + KeyLines(prefix, keys[1..])
  }

  lemma {:induction false} TopLinesAppend(prefix: string, a: seq<string>, b: seq<string>)
    ensures TopLines(prefix, a + b) == TopLines(prefix, a) + TopLines(prefix, b)
    decreases |a|
  {
    if a != [] {
      assert (a + b)[0] == a[0] && (a + b)[1..] == a[1..] + b;
      TopLinesAppend(prefix, a[1..], b);
    } else {
      assert a + b == b;
    }
  }

  /** Lines drawn under a longer prefix of a bar or blanks are not top lines. */
  lemma {:induction false} TopLinesNone(prefix: string, pad: string, lines: seq<string>)
    requires pad == Bar || pad == Blank
    requires forall k :: 0 <= k < |lines| ==> prefix + pad <= lines[k]
    ensures TopLines(prefix, lines) == []
    decreases |lines|
  {
    if lines != [] {
      var l := lines[0];
      assert l[|prefix|] == (prefix + pad)[|prefix|] == pad[0];
      TopLinesNone(prefix, pad, lines[1..]);
    }
  }

  /**
   * The names directly under a prefix are drawn one per line in the order
   * `Object.entries` lists them, the last with a corner and the others
   * with a tee; everything else is drawn deeper.
   */
  lemma {:induction false} RenderTopLines(t: Props<Node>, prefix: string)
    ensures TopLines(prefix, Render(t, prefix)) == KeyLines(prefix, Keys(Entries(t)))
  {
    forall x | x in Entries(t) ensures x in t {
      EntriesMember(t, x);
    }
    RenderListTopLines(t, Entries(t), prefix);
  }

  lemma {:induction false} RenderListTopLines(t: Props<Node>, es: Props<Node>, prefix: string)
    requires forall x :: x in es ==> x in t
    ensures TopLines(prefix, RenderList(t, es, prefix)) == KeyLines(prefix, Keys(es))
    decreases |es|
  {
    if es != [] {
      var key, value := es[0].0, es[0].1;
      var isLast := |es| == 1;
      var glyph := if isLast then Corner else Tee;
      var line := prefix + glyph + key;
      var pad := if isLast then Blank else Bar;
      var below := if value.Dir? then Render(value.children, prefix + pad) else [];
      var rest := RenderList(t, es[1..], prefix);
      assert RenderList(t, es, prefix) == [line] + below + rest;
      if value.Dir? {
        RenderPrefix(value.children, prefix + pad);
      }
      TopLinesNone(prefix, pad, below);
      RenderListTopLines(t, es[1..], prefix);
      TopLinesAppend(prefix, [line] + below, rest);
      TopLinesAppend(prefix, [line], below);
      assert line[..|prefix|] == prefix && line[|prefix|] == glyph[0];
      assert TopLines(prefix, [line]) == [line];
      assert Keys(es) == [key] + Keys(es[1..]);
      assert |Keys(es)| == 1 <==> isLast;
    }
  }

  /**
   * Every line that does not draw a name at this level belongs to the
   * subtree of the name above it: it is indented by a bar while a later
   * name at this level follows, and by blanks after the last name.
   */
  predicate Padded(prefix: string, lines: seq<string>)
  {
    forall k :: 0 <= k < |lines| && !IsTopLine(prefix, lines[k]) ==>
      prefix + (if TopLines(prefix, lines[k + 1..]) != [] then Bar else Blank) <= lines[k]
  }

  /** A name's line, the lines of its subtree, and the lines of its later siblings. */
  lemma {:induction false} PaddedCons(prefix: string, line: string, pad: string, below: seq<string>, rest: seq<string>)
    requires IsTopLine(prefix, line)
    requires pad == Bar || pad == Blank
    requires forall k :: 0 <= k < |below| ==> prefix + pad <= below[k]
    requires TopLines(prefix, rest) != [] <==> pad == Bar
    requires Padded(prefix, rest)
    ensures Padded(prefix, [line] + below + rest)
  {
    var lines := [line] + below + rest;
    var n := 1 + |below|;
    forall k | 0 <= k < |lines| && !IsTopLine(prefix, lines[k])
      ensures prefix + (if TopLines(prefix, lines[k + 1..]) != [] then Bar else Blank) <= lines[k]
    {
      if 0 < k < n {
        var after := below[k..];
        assert lines[k] == below[k - 1];
        assert lines[k + 1..] == after + rest;
        forall j | 0 <= j < |after| ensures prefix + pad <= after[j] {
          assert after[j] == below[k + j];
        }
        TopLinesNone(prefix, pad, after);
        TopLinesAppend(prefix, after, rest);
      } else if k >= n {
        assert lines[k] == rest[k - n];
        assert lines[k + 1..] == rest[k - n + 1..];
      }
    }
  }

  /** The subtree of a name is drawn under a bar unless the name is the last one at its level. */
  lemma {:induction false} RenderPadded(t: Props<Node>, prefix: string)
    ensures Padded(prefix, Render(t, prefix))
  {
    forall x | x in Entries(t) ensures x in t {
      EntriesMember(t, x);
    }
    RenderListPadded(t, Entries(t), prefix);
  }

  lemma {:induction false} RenderListPadded(t: Props<Node>, es: Props<Node>, prefix: string)
    requires forall x :: x in es ==> x in t
    ensures Padded(prefix, RenderList(t, es, prefix))
    decreases |es|
  {
    if es != [] {
      var key, value := es[0].0, es[0].1;
      var isLast := |es| == 1;
      var glyph := if isLast then Corner else Tee;
      var line := prefix + glyph + key;
      var pad := if isLast then Blank else Bar;
      var below := if value.Dir? then Render(value.children, prefix + pad) else [];
      var rest := RenderList(t, es[1..], prefix);
      assert RenderList(t, es, prefix) == [line] + below + rest;
      if value.Dir? {
        RenderPrefix(value.children, prefix + pad);
      }
      RenderListTopLines(t, es[1..], prefix);
      assert KeyLines(prefix, Keys(es[1..])) != [] <==> !isLast;
      RenderListPadded(t, es[1..], prefix);
      assert line[..|prefix|] == prefix && line[|prefix|] == glyph[0];
      PaddedCons(prefix, line, pad, below, rest);
    }
  }

  // ---------------------------------------------------------------------
  // The source's procedures

  /**
   * One turn of `stringifyTree`'s loop: the line of `es[i]` and the lines
   * below it, appended to the text so far, leave the lines of the entries
   * after it to be appended.
   */
  lemma StringifyStep(node: Props<Node>, es: Props<Node>, i: nat, prefix: string, before: string, line: string, sub: string)
    requires forall x :: x in es ==> x in node
    requires i < |es|
    requires before + Unlines(RenderList(node, es[i..], prefix)) == Unlines(Render(node, prefix))
    requires line == prefix + (if i == |es| - 1 then Corner else Tee) + es[i].0
    requires sub == if es[i].1.Dir? then Unlines(Render(es[i].1.children, prefix + (if i == |es| - 1 then Blank else Bar))) else ""
    ensures before + (line + "\n") + sub + Unlines(RenderList(node, es[i + 1..], prefix)) == Unlines(Render(node, prefix))
  {
    var isLast := i == |es| - 1;
    var value := es[i].1;
    var below := if value.Dir? then Render(value.children, prefix + (if isLast then Blank else Bar)) else [];
    var rest := RenderList(node, es[i + 1..], prefix);
    assert es[i..][1..] == es[i + 1..];
    assert RenderList(node, es[i..], prefix) == [line] + below + rest;
    UnlinesAppend([line] + below, rest);
    UnlinesAppend([line], below);
    assert Unlines([line]) == line + "\n";
    assert sub == Unlines(below);
    Associate(before, line + "\n", sub);
    Associate(before, (line + "\n") + sub, Unlines(rest));
  }

  /** `stringifyTree(node, prefix)`: each line is appended with its "\n", a directory's lines after its own. */
  method StringifyTree(node: Props<Node>, prefix: string) returns (result: string)
    ensures result == Unlines(Render(node, prefix))
    decreases node
  {
    result := "";
    var entries := Entries(node);
    forall x | x in entries ensures x in node {
      EntriesMember(node, x);
    }
    var i := 0;
    while i < |entries|
      invariant 0 <= i <= |entries|
      invariant result + Unlines(RenderList(node, entries[i..], prefix)) == Unlines(Render(node, prefix))
    {
      var key, value := entries[i].0, entries[i].1;
      var isLast := i == |entries| - 1;
      var line := prefix + (if isLast then Corner else Tee) + key;
      var sub := "";
      if value.Dir? {
        var newPrefix := prefix + (if isLast then Blank else Bar);
        assert entries[i] in node && entries[i].1 < entries[i];
        sub := StringifyTree(value.children, newPrefix);
      }
      StringifyStep(node, entries, i, prefix, result, line, sub);
      result := result + (line + "\n") + sub;
      i := i + 1;
    }
    assert entries[i..] == [];
  }

  /** `buildDirectoryTree`: the drawing of the tree of the relative paths. */
  method BuildDirectoryTree(relativePaths: seq<string>) returns (s: string)
    ensures s == Unlines(Render(Build(relativePaths), ""))
  {
    var tree := BuildTree(relativePaths);
    s := StringifyTree(tree, "");
  }

  // ---------------------------------------------------------------------
  // Insertion as written

  /**
   * The loop over the segments of one path as the source writes it: the
   * test `!current[part]` also sees the members every object inherits from
   * `Object.prototype`. A directory segment named like one of them that is
   * not an own key reads as a function, which is truthy, so nothing is
   * created and `current` moves into that built-in: the rest of the path
   * is written there, outside the tree. (A segment named `__proto__` is not
   * modelled: writing it changes the object's prototype.)
   */
  function InsertAsWritten(t: Props<Node>, parts: seq<string>): Props<Node>
    requires parts != [] && "__proto__" !in parts
    decreases |parts|
  {
    var part := parts[0];
    if |parts| == 1 then Put(t, part, Leaf)
    else
      match Lookup<Node>(t, part)
      case Some(Dir(c)) => Put(t, part, Dir(InsertAsWritten(c, parts[1..])))
      case Some(Leaf) => Put(t, part, Dir(InsertAsWritten([], parts[1..])))
      case None => if Inherited(part) then t else Put(t, part, Dir(InsertAsWritten([], parts[1..])))
  }

  /** Without inherited names among the directory segments, the source inserts as intended. */
  lemma {:induction false} AsWrittenAgrees(t: Props<Node>, parts: seq<string>)
    requires parts != [] && "__proto__" !in parts
    requires forall i :: 0 <= i < |parts| - 1 ==> !Inherited(parts[i])
    ensures InsertAsWritten(t, parts) == Insert(t, parts)
    decreases |parts|
  {
    if |parts| > 1 {
      var rest := parts[1..];
      assert forall i :: 0 <= i < |rest| - 1 ==> rest[i] == parts[i + 1];
      assert "__proto__" !in rest;
      AsWrittenAgrees(Subdir(t, parts[0]), rest);
      AsWrittenAgrees([], rest);
    }
  }

  /** No path of `paths` has a segment `__proto__`, which the as-written insertion leaves out. */
  predicate NoProtoSegment(paths: seq<string>)
  {
    forall i :: 0 <= i < |paths| ==> "__proto__" !in Segments(paths[i])
  }

  /** No directory segment of any path of `paths` is the name of an inherited property. */
  predicate NoInheritedDirs(paths: seq<string>)
  {
    forall i, j :: 0 <= i < |paths| && 0 <= j < |Segments(paths[i])| - 1 ==> !Inherited(Segments(paths[i])[j])
  }

  /** The outer loop of `buildDirectoryTree` with the insertion as the source writes it. */
  function BuildAsWritten(paths: seq<string>): Props<Node>
    requires NoProtoSegment(paths)
  {
    if paths == [] then []
    else
      var init := paths[..|paths| - 1];
      assert forall i :: 0 <= i < |init| ==> init[i] == paths[i];
      InsertAsWritten(BuildAsWritten(init), Segments(paths[|paths| - 1]))
  }

  /**
   * Without inherited names among the directory segments of any path, the
   * whole tree the source builds is the tree of the corrected insertion.
   */
  lemma {:induction false} BuildAsWrittenAgrees(paths: seq<string>)
    requires NoProtoSegment(paths) && NoInheritedDirs(paths)
    ensures BuildAsWritten(paths) == Build(paths)
    decreases |paths|
  {
    if paths != [] {
      var init := paths[..|paths| - 1];
      var last := Segments(paths[|paths| - 1]);
      assert forall i :: 0 <= i < |init| ==> init[i] == paths[i];
      BuildAsWrittenAgrees(init);
      assert forall j :: 0 <= j < |last| - 1 ==> !Inherited(last[j]);
      AsWrittenAgrees(Build(init), last);
    }
  }

  lemma InnerDrawing(inner: Props<Node>)
    requires inner == [("index.ts", Leaf)]
    ensures Render(inner, Blank) == [Blank + Corner + "index.ts"]
  {
    assert !IsArrayIndex("index.ts");
    EntriesNoIndex(inner);
    assert Render(inner, Blank) == RenderList(inner, inner, Blank);
    assert RenderList(inner, inner[1..], Blank) == [];
    var below: seq<string> := [];
    assert RenderList(inner, inner, Blank) == [Blank + Corner + "index.ts"] + below + RenderList(inner, inner[1..], Blank);
  }

  lemma TreeDrawing(inner: Props<Node>, tree: Props<Node>)
    requires inner == [("index.ts", Leaf)] && tree == [("constructor", Dir(inner))]
    ensures Render(tree, "") == [Corner + "constructor", Blank + Corner + "index.ts"]
  {
    assert !IsArrayIndex("constructor");
    EntriesNoIndex(tree);
    InnerDrawing(inner);
    assert Render(tree, "") == RenderList(tree, tree, "");
    assert RenderList(tree, tree[1..], "") == [];
    assert "" + Corner + "constructor" == Corner + "constructor";
    assert "" + Blank == Blank;
    assert RenderList(tree, tree, "") == [Corner + "constructor"] + Render(inner, Blank) + RenderList(tree, tree[1..], "");
  }

  /** The tree of the single path constructor/index.ts, drawn. */
  lemma ConstructorTree()
    ensures Render(Insert([], ["constructor", "index.ts"]), "") == [Corner + "constructor", Blank + Corner + "index.ts"]
  {
    ConstructorInsert();
    TreeDrawing([("index.ts", Leaf)], [("constructor", Dir([("index.ts", Leaf)]))]);
  }

  lemma ConstructorInsert()
    ensures Insert([], ["constructor", "index.ts"]) == [("constructor", Dir([("index.ts", Leaf)]))]
  {
    var parts := ["constructor", "index.ts"];
    assert parts[1..] == ["index.ts"];
    assert Subdir([], "constructor") == [];
    assert Insert([], ["index.ts"]) == [("index.ts", Leaf)];
  }

  /**
   * A file under a directory named `constructor` vanishes from the tree as
   * written, while the intended insertion draws it.
   */
  lemma AsWrittenLosesPath()
    ensures var parts := ["constructor", "index.ts"];
      && InsertAsWritten([], parts) == []
      && !Has(InsertAsWritten([], parts), parts)
      && Render(InsertAsWritten([], parts), "") == []
      && Has(Insert([], parts), parts)
      && Render(Insert([], parts), "") == [Corner + "constructor", Blank + Corner + "index.ts"]
  {
    assert Inherited("constructor");
    InsertHas([], ["constructor", "index.ts"]);
    ConstructorTree();
    EntriesNoIndex<Node>([]);
  }
}
