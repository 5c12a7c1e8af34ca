/**
 * `generateRepositorySummary`: the collected files relative to the
 * repository root, the number of files per extension kept in a plain
 * object and listed through `Object.entries`, the drawn directory tree,
 * and the text that puts them together.
 */
module Summary {
  import opened Wrappers
  import opened Text
  import opened Paths
  import opened JsObject
  import opened DirTree

  // ---------------------------------------------------------------------
  // Relative paths

  /** Each collected file's path relative to the root, in the order of the files. */
  function RelativePaths(rootPath: string, files: seq<string>): (rel: seq<string>)
    ensures |rel| == |files|
  {
    seq(|files|, i requires 0 <= i < |files| => Relative(rootPath, files[i]))
  }

  /** Files found below the root are reported by the part of their path below it. */
  lemma {:induction false} RelativePathsBelow(rootPath: string, rels: seq<string>)
    ensures RelativePaths(rootPath, seq(|rels|, i requires 0 <= i < |rels| => rootPath + "/" + rels[i])) == rels
  {
    var files := seq(|rels|, i requires 0 <= i < |rels| => rootPath + "/" + rels[i]);
    var rel := RelativePaths(rootPath, files);
    forall i | 0 <= i < |rels| ensures rel[i] == rels[i] {
      RelativeOfChild(rootPath, rels[i]);
    }
  }

  // ---------------------------------------------------------------------
  // Counting files per extension

  /** `path.extname` of each relative path, in order. */
  function Exts(paths: seq<string>): (es: seq<string>)
    ensures |es| == |paths|
  {
    seq(|paths|, i requires 0 <= i < |paths| => Extname(paths[i]))
  }

  /** How many times `x` occurs in `xs`. */
  function Occurrences(xs: seq<string>, x: string): nat
  {
    if xs == [] then 0
    else Occurrences(xs[..|xs| - 1], x) + (if xs[|xs| - 1] == x then 1 else 0)
  }

  /** The distinct elements of `xs`, each where it first occurs. */
  function Dedup(xs: seq<string>): (ds: seq<string>)
    ensures forall x :: x in ds <==> x in xs
    ensures DistinctSeq(ds)
  {
    if xs == [] then []
    else
      var init := Dedup(xs[..|xs| - 1]);
      var x := xs[|xs| - 1];
      assert forall y :: y in xs <==> y in xs[..|xs| - 1] || y == x;
      if x in init then init else init + [x]
  }

  /** The count stored under `ext`, or 0 when the tally has no property `ext` yet. */
  function CountOf(counts: Props<nat>, ext: string): nat
  {
    match Lookup(counts, ext)
    case None => 0
    case Some(n) => n
  }

  /** The counts object after the loop has seen each extension of `exts` in turn. */
  function Tally(exts: seq<string>): Props<nat>
  {
    if exts == [] then []
    else
      var counts := Tally(exts[..|exts| - 1]);
      var ext := exts[|exts| - 1];
      Put<nat>(counts, ext, CountOf(counts, ext) + 1)
  }

  /** The counting loop of `generateRepositorySummary`. */
  method CountExtensions(relativePaths: seq<string>) returns (counts: Props<nat>)
    ensures counts == Tally(Exts(relativePaths))
  {
    counts := [];
    var i := 0;
    while i < |relativePaths|
      invariant 0 <= i <= |relativePaths|
      invariant counts == Tally(Exts(relativePaths[..i]))
    {
      var ext := Extname(relativePaths[i]);
      ghost var before, after := Exts(relativePaths[..i]), Exts(relativePaths[..i + 1]);
      ExtsSnoc(relativePaths, i);
      assert after == before + [ext];
      TallySnoc(before, ext);
      assert Tally(before + [ext]) == Put<nat>(Tally(before), ext, CountOf(Tally(before), ext) + 1);
      counts := Put<nat>(counts, ext, CountOf(counts, ext) + 1);
      i := i + 1;
    }
    assert relativePaths[..i] == relativePaths;
  }

  lemma {:induction false} ExtsSnoc(paths: seq<string>, i: nat)
    requires i < |paths|
    ensures Exts(paths[..i + 1]) == Exts(paths[..i]) + [Extname(paths[i])]
  {
    var a, b := Exts(paths[..i + 1]), Exts(paths[..i]) + [Extname(paths[i])];
    forall k | 0 <= k < |a| ensures a[k] == b[k] {
      if k < i {
        assert paths[..i + 1][k] == paths[..i][k];
      }
    }
  }

  /** Counting one more extension. */
  lemma {:induction false} TallySnoc(exts: seq<string>, ext: string)
    ensures Tally(exts + [ext]) == Put<nat>(Tally(exts), ext, CountOf(Tally(exts), ext) + 1)
  {
    var e := exts + [ext];
    assert e[..|e| - 1] == exts && e[|e| - 1] == ext;
    assert Tally(e) == Put<nat>(Tally(exts), ext, CountOf(Tally(exts), ext) + 1);
  }

  /** Each extension that occurs is stored with its number of occurrences; no other key is stored. */
  lemma {:induction false} TallyLookup(exts: seq<string>, e: string)
    ensures Lookup(Tally(exts), e) == if Occurrences(exts, e) == 0 then None else Some(Occurrences(exts, e))
    decreases |exts|
  {
    if exts != [] {
      var init, ext := exts[..|exts| - 1], exts[|exts| - 1];
      var before := Tally(init);
      var n: nat := CountOf(before, ext) + 1;
      assert Tally(exts) == Put<nat>(before, ext, n);
      assert Occurrences(exts, e) == Occurrences(init, e) + (if ext == e then 1 else 0);
      PutLookup<nat>(before, ext, n, e);
      if e == ext {
        TallyLookup(init, ext);
        assert n == Occurrences(exts, e);
      } else {
        TallyLookup(init, e);
      }
    }
  }

  /** The counts object's keys are the distinct extensions in order of first occurrence. */
  lemma {:induction false} TallyKeys(exts: seq<string>)
    ensures Keys(Tally(exts)) == Dedup(exts)
    decreases |exts|
  {
    if exts != [] {
      var init, ext := exts[..|exts| - 1], exts[|exts| - 1];
      var before := Tally(init);
      var n: nat := CountOf(before, ext) + 1;
      assert Tally(exts) == Put<nat>(before, ext, n);
      assert Dedup(exts) == if ext in Dedup(init) then Dedup(init) else Dedup(init) + [ext];
      TallyKeys(init);
      PutKeys<nat>(before, ext, n);
    }
  }

  lemma {:induction false} DistinctKeysOf<V>(ps: Props<V>)
    requires DistinctSeq(Keys(ps))
    ensures DistinctKeys(ps)
  {
    var ks := Keys(ps);
    forall i, j | 0 <= i < j < |ps| ensures ps[i].0 != ps[j].0 {
      assert ks[i] == ps[i].0 && ks[j] == ps[j].0;
    }
  }

  /** With distinct keys, reading a property's key gives that property's value. */
  lemma {:induction false} LookupAt<V>(ps: Props<V>, i: nat)
    requires DistinctKeys(ps) && i < |ps|
    ensures Lookup(ps, ps[i].0) == Some(ps[i].1)
    decreases i
  {
    if i > 0 {
      var rest := ps[1..];
      assert rest[i - 1] == ps[i];
      assert DistinctKeys(rest) by {
        forall a, b | 0 <= a < b < |rest| ensures rest[a].0 != rest[b].0 {
          assert rest[a] == ps[a + 1] && rest[b] == ps[b + 1];
        }
      }
      LookupAt(rest, i - 1);
      assert ps[0].0 != ps[i].0;
    }
  }

  /**
   * The counts object, property by property: the `i`-th is the `i`-th
   * distinct extension with its number of occurrences.
   */
  lemma {:induction false} TallyAt(exts: seq<string>, i: nat)
    requires i < |Tally(exts)|
    ensures |Tally(exts)| == |Dedup(exts)|
    ensures Tally(exts)[i] == (Dedup(exts)[i], Occurrences(exts, Dedup(exts)[i]))
  {
    var counts := Tally(exts);
    TallyKeys(exts);
    DistinctKeysOf(counts);
    assert Keys(counts)[i] == counts[i].0;
    LookupAt(counts, i);
    TallyLookup(exts, counts[i].0);
  }

  /** Adding one extension adds one to the total of the counts. */
  function Total(counts: Props<nat>): nat
  {
    if counts == [] then 0 else counts[0].1 + Total(counts[1..])
  }

  lemma {:induction false} TotalPut(ps: Props<nat>, k: string, v: nat)
    ensures Total(Put(ps, k, v)) + CountOf(ps, k) == Total(ps) + v
    decreases |ps|
  {
    if ps != [] && ps[0].0 != k {
      TotalPut(ps[1..], k, v);
      assert Put(ps, k, v)[1..] == Put(ps[1..], k, v);
    } else if ps != [] {
      assert Put(ps, k, v)[1..] == ps[1..];
    }
  }

  /** The counts add up to the number of files counted. */
  lemma {:induction false} TallyTotal(exts: seq<string>)
    ensures Total(Tally(exts)) == |exts|
    decreases |exts|
  {
    if exts != [] {
      var init, ext := exts[..|exts| - 1], exts[|exts| - 1];
      var before := Tally(init);
      var n: nat := CountOf(before, ext) + 1;
      assert Tally(exts) == Put<nat>(before, ext, n);
      TallyTotal(init);
      TotalPut(before, ext, n);
    }
  }

  /**
   * No extension is an array index or a name inherited from
   * `Object.prototype`: so `|| 0` reads only own counts, and
   * `Object.entries` lists the counts in the order they were created.
   */
  lemma ExtnameKey(p: string)
    ensures !IsArrayIndex(Extname(p)) && !Inherited(Extname(p))
  {
    var e := Extname(p);
    if Inherited(e) {
      InheritedNames(e);
    }
  }

  lemma {:induction false} TallyEntries(paths: seq<string>)
    ensures Entries(Tally(Exts(paths))) == Tally(Exts(paths))
  {
    var exts := Exts(paths);
    var counts := Tally(exts);
    TallyKeys(exts);
    forall i | 0 <= i < |counts| ensures !IsArrayIndex(counts[i].0) {
      assert Keys(counts)[i] == counts[i].0;
      assert counts[i].0 in exts;
      var j :| 0 <= j < |exts| && exts[j] == counts[i].0;
      ExtnameKey(paths[j]);
    }
    EntriesNoIndex(counts);
  }

  // ---------------------------------------------------------------------
  // Formatting

  /** The line reporting `count` files with the extension `ext`: the extension, a colon, the count and the word "files". */
  function CountLine(ext: string, count: nat): string
  {
    ext + ": " + Decimal(count) + " files"
  }

  /** One line per property, in the given order. */
  function CountLines(counts: Props<nat>): (lines: seq<string>)
    ensures |lines| == |counts|
    ensures forall i :: 0 <= i < |counts| ==> lines[i] == CountLine(counts[i].0, counts[i].1)
  {
    if counts == [] then [] else [CountLine(counts[0].0, counts[0].1)] + CountLines(counts[1..])
  }

  /** `extensionSummary`: the lines of `Object.entries(extensionCounts)` joined by "\n". */
  function ExtensionSummary(counts: Props<nat>): string
  {
    Join(CountLines(Entries(counts)), '\n')
  }

  /** The distinct extensions in order of first occurrence, each with its number of occurrences. */
  function ReferenceLines(exts: seq<string>): (lines: seq<string>)
    ensures |lines| == |Dedup(exts)|
  {
    var ds := Dedup(exts);
    seq(|ds|, i requires 0 <= i < |ds| => CountLine(ds[i], Occurrences(exts, ds[i])))
  }

  lemma {:induction false} TallyLines(exts: seq<string>)
    ensures CountLines(Tally(exts)) == ReferenceLines(exts)
  {
    var lines, want := CountLines(Tally(exts)), ReferenceLines(exts);
    TallyKeys(exts);
    assert |lines| == |want|;
    forall i | 0 <= i < |want| ensures lines[i] == want[i] {
      TallyAt(exts, i);
    }
  }

  /**
   * The extension summary of a list of paths lists each distinct extension
   * once, in order of first occurrence, with its number of occurrences.
   */
  lemma {:induction false} ExtensionSummaryLines(paths: seq<string>)
    ensures ExtensionSummary(Tally(Exts(paths))) == Join(ReferenceLines(Exts(paths)), '\n')
  {
    TallyEntries(paths);
    TallyLines(Exts(paths));
  }

  /** The text `generateRepositorySummary` returns, from its four parts. */
  function SummaryText(rootPath: string, total: nat, extensionSummary: string, directoryStructure: string): string
  {
    "\nRepository at: " + rootPath
    + "\nTotal files analyzed: " + Decimal(total)
    + "\n\nFile types:\n" + extensionSummary
    + "\n\nDirectory structure:\n" + directoryStructure
    + "\n"
  }

  /** `generateRepositorySummary`: the summary text of the collected files under the root. */
  method GenerateRepositorySummary(rootPath: string, files: seq<string>) returns (summary: string)
    ensures var rel := RelativePaths(rootPath, files);
      summary == SummaryText(rootPath, |files|, ExtensionSummary(Tally(Exts(rel))), Unlines(Render(Build(rel), "")))
  {
    var relativePaths := RelativePaths(rootPath, files);
    var extensionCounts := CountExtensions(relativePaths);
    var extensionSummary := Join(CountLines(Entries(extensionCounts)), '\n');
    var directoryStructure := BuildDirectoryTree(relativePaths);
    summary := SummaryText(rootPath, |files|, extensionSummary, directoryStructure);
  }

  /** The file total the summary reports equals the sum of the per-extension counts it lists. */
  lemma {:induction false} SummaryTotals(rootPath: string, files: seq<string>)
    ensures Total(Entries(Tally(Exts(RelativePaths(rootPath, files))))) == |files|
  {
    var rel := RelativePaths(rootPath, files);
    TallyEntries(rel);
    TallyTotal(Exts(rel));
  }
}
