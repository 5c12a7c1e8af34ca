/**
 * The repository scanner: `collectFiles` and its inner `traverseDirectory`
 * (src/analyzer.ts). A depth-first walk over a directory tree, in listing
 * order, that prunes every entry whose name contains an ignore pattern,
 * keeps regular files with a supported extension, and stops as soon as
 * `maxFiles` paths have been kept.
 *
 * The filesystem is a value: a directory's listing is either the entries
 * `readdir` returns, in its order, or `Unreadable` when `readdir` throws.
 */
module Scanner {
  import opened Wrappers
  import opened Text
  import opened Paths

  /** The extensions of the files that are kept. */
  const SupportedExtensions: seq<string> :=
    [".js", ".ts", ".jsx", ".tsx",
     ".py", ".java", ".go", ".rust",
     ".rb", ".php", ".swift", ".c",
     ".cpp", ".cs", ".html", ".css"]

  /** An entry whose name contains one of these is skipped, with its whole subtree. */
  const IgnorePatterns: seq<string> :=
    ["node_modules", ".git", "dist", "build",
     "venv", "__pycache__", ".DS_Store"]

  /** A name is ignored when it contains one of the ignore patterns anywhere in it. */
  predicate IgnoredName(name: string)
  {
    exists k :: 0 <= k < |IgnorePatterns| && Contains(name, IgnorePatterns[k])
  }

  /** A file name is supported when its extension is one of the supported extensions. */
  predicate SupportedName(name: string)
  {
    Extname(name) in SupportedExtensions
  }

  /**
   * The two tests a scan applies to entry names. The traversal is proved
   * for any pair of tests; `SourceFilters` is the pair `collectFiles` uses.
   */
  datatype Filters = Filters(ignored: string -> bool, supported: string -> bool)

  const SourceFilters := Filters(IgnoredName, SupportedName)

  predicate Ignored(f: Filters, name: string)
  {
    f.ignored(name)
  }

  predicate Supported(f: Filters, name: string)
  {
    f.supported(name)
  }

  /** A directory entry as `readdir(..., { withFileTypes: true })` reports it. */
  datatype Entry =
    | File(name: string)                  // a regular file
    | Dir(name: string, listing: Listing) // a directory and what listing it yields
    | Other(name: string)                 // a symbolic link, socket, device, ...

  datatype Listing = Listed(entries: seq<Entry>) | Unreadable

  /** A name `readdir` can return: not empty and without a separator. */
  predicate ValidName(name: string)
  {
    name != [] && '/' !in name
  }

  predicate WellFormed(l: Listing)
    decreases l
  {
    l.Listed? ==> WellFormedEntries(l.entries)
  }

  predicate WellFormedEntries(es: seq<Entry>)
    decreases es
  {
    forall i :: 0 <= i < |es| ==> WellFormedEntry(es[i])
  }

  predicate WellFormedEntry(e: Entry)
    decreases e
  {
    ValidName(e.name) && (e.Dir? ==> WellFormed(e.listing))
  }

  /** No listing anywhere in the tree fails. */
  predicate AllReadable(l: Listing)
    decreases l
  {
    l.Listed? && forall i :: 0 <= i < |l.entries| ==> EntryReadable(l.entries[i])
  }

  predicate EntryReadable(e: Entry)
    decreases e
  {
    e.Dir? ==> AllReadable(e.listing)
  }
  // ---------------------------------------------------------------------
  // The uncapped traversal, as a trace of steps

  /** What the traversal does: list a directory (successfully or not), or keep a file path. */
  datatype Step = Read(dir: string, ok: bool) | Keep(path: string)

  /** The steps of a traversal, first step first. */
  datatype Trace = Done | Then(step: Step, rest: Trace)

  function Concat(a: Trace, b: Trace): (c: Trace)
    ensures a == Done ==> c == b
    ensures b == Done ==> c == a
  {
    match a
    case Done => b
    case Then(s, r) => Then(s, Concat(r, b))
  }

  lemma {:induction false} ConcatAssoc(a: Trace, b: Trace, c: Trace)
    ensures Concat(Concat(a, b), c) == Concat(a, Concat(b, c))
  {
    match a
    case Done =>
    case Then(_, r) => ConcatAssoc(r, b, c);
  }

  /** `a` is an initial stretch of `t`. */
  predicate IsPrefix(a: Trace, t: Trace)
  {
    match a
    case Done => true
    case Then(s, r) => t.Then? && t.step == s && IsPrefix(r, t.rest)
  }

  function Last(t: Trace): Option<Step>
  {
    match t
    case Done => None
    case Then(s, Done) => Some(s)
    case Then(_, r) => Last(r)
  }

  /** The uncapped pre-order traversal of the directory `dir` whose listing is `l`. */
  function Walk(f: Filters, dir: string, l: Listing): Trace
    decreases l
  {
    match l
    case Unreadable => Then(Read(dir, false), Done)
    case Listed(es) => Then(Read(dir, true), WalkEntries(f, dir, es))
  }

  /** The steps for the entries `es` of `dir`, in listing order. */
  function WalkEntries(f: Filters, dir: string, es: seq<Entry>): Trace
    decreases es
  {
    if es == [] then Done
    else Concat(WalkEntries(f, dir, es[..|es| - 1]), WalkEntry(f, dir, es[|es| - 1]))
  }

  /** The steps for one entry: pruned if ignored, walked if a directory, kept if a supported file. */
  function WalkEntry(f: Filters, dir: string, e: Entry): Trace
    decreases e
  {
    if Ignored(f, e.name) then Done
    else
      match e
      case File(n) => if Supported(f, n) then Then(Keep(JoinPath(dir, n)), Done) else Done
      case Dir(n, l) => Walk(f, JoinPath(dir, n), l)
      case Other(_) => Done
  }

  /** The paths kept, in order. */
  function Kept(t: Trace): seq<string>
  {
    match t
    case Done => []
    case Then(s, r) => (if s.Keep? then [s.path] else []) + Kept(r)
  }

  /** The directories listed, in order. */
  function Reads(t: Trace): seq<string>
  {
    match t
    case Done => []
    case Then(s, r) => (if s.Read? then [s.dir] else []) + Reads(r)
  }

  predicate IsFailedRead(s: Step)
  {
    s.Read? && !s.ok
  }

  /** The directory of the first failed listing, if any. */
  function Failure(t: Trace): Option<string>
  {
    match t
    case Done => None
    case Then(s, r) => if IsFailedRead(s) then Some(s.dir) else Failure(r)
  }

  // ---------------------------------------------------------------------
  // The capped traversal

  /**
   * The steps that the capped traversal actually performs, when `budget`
   * more paths may be kept: each step is taken only while fewer than
   * `budget` paths have been kept, and nothing follows a failed listing.
   */
  function Processed(t: Trace, budget: int): Trace
  {
    if budget <= 0 then Done
    else
      match t
      case Done => Done
      case Then(s, r) =>
        Then(s, if IsFailedRead(s) then Done else Processed(r, if s.Keep? then budget - 1 else budget))
  }

  /** The capped run has stopped: the budget is used up or a listing failed. */
  predicate Stopped(p: Trace, budget: int)
  {
    budget <= |Kept(p)| || Failure(p).Some?
  }

  /** The result of `collectFiles(rootPath, maxFiles)`, or the directory whose listing threw. */
  function Collect(f: Filters, rootPath: string, root: Listing, maxFiles: int): Result<seq<string>, string>
  {
    var p := Processed(Walk(f, rootPath, root), maxFiles);
    if Failure(p).Some? then Err(Failure(p).value) else Ok(Kept(p))
  }

  // ---------------------------------------------------------------------
  // Algebra of traces

  lemma {:induction false} KeptConcat(a: Trace, b: Trace)
    ensures Kept(Concat(a, b)) == Kept(a) + Kept(b)
  {
    match a
    case Done =>
    case Then(s, r) =>
      KeptConcat(r, b);
      assert (if s.Keep? then [s.path] else []) + (Kept(r) + Kept(b))
          == (if s.Keep? then [s.path] else []) + Kept(r) + Kept(b);
  }

  lemma {:induction false} ReadsConcat(a: Trace, b: Trace)
    ensures Reads(Concat(a, b)) == Reads(a) + Reads(b)
  {
    match a
    case Done =>
    case Then(s, r) =>
      ReadsConcat(r, b);
      assert (if s.Read? then [s.dir] else []) + (Reads(r) + Reads(b))
          == (if s.Read? then [s.dir] else []) + Reads(r) + Reads(b);
  }

  lemma {:induction false} FailureConcat(a: Trace, b: Trace)
    ensures Failure(Concat(a, b)) == if Failure(a).Some? then Failure(a) else Failure(b)
  {
    match a
    case Done =>
    case Then(_, r) => FailureConcat(r, b);
  }

  lemma {:induction false} WalkEntriesAppend(f: Filters, dir: string, a: seq<Entry>, b: seq<Entry>)
    ensures WalkEntries(f, dir, a + b) == Concat(WalkEntries(f, dir, a), WalkEntries(f, dir, b))
    decreases |b|
  {
    if b == [] {
      assert a + b == a;
    } else {
      var c := a + b;
      var b' := b[..|b| - 1];
      assert c[..|c| - 1] == a + b';
      assert c[|c| - 1] == b[|b| - 1];
      WalkEntriesAppend(f, dir, a, b');
      ConcatAssoc(WalkEntries(f, dir, a), WalkEntries(f, dir, b'), WalkEntry(f, dir, b[|b| - 1]));
    }
  }

  /** A run that neither used up its budget nor failed performed every step. */
  lemma {:induction false} ProcessedWhole(t: Trace, budget: int)
    ensures !Stopped(Processed(t, budget), budget) ==> Processed(t, budget) == t
  {
    match t
    case Done =>
    case Then(s, r) =>
      if budget > 0 && !IsFailedRead(s) {
        ProcessedWhole(r, if s.Keep? then budget - 1 else budget);
      }
  }

  /** Once the run of `a` has stopped, nothing after `a` is reached. */
  lemma {:induction false} ProcessedConcatStopped(a: Trace, b: Trace, budget: int)
    requires Stopped(Processed(a, budget), budget)
    ensures Processed(Concat(a, b), budget) == Processed(a, budget)
  {
    match a
    case Done =>
    case Then(s, r) =>
      if budget > 0 && !IsFailedRead(s) {
        ProcessedConcatStopped(r, b, if s.Keep? then budget - 1 else budget);
      }
  }

  /** When the run of `a` has not stopped, the run of `b` follows with the budget left. */
  lemma {:induction false} ProcessedConcatWhole(a: Trace, b: Trace, budget: int)
    requires !Stopped(Processed(a, budget), budget)
    ensures Processed(Concat(a, b), budget) == Concat(a, Processed(b, budget - |Kept(a)|))
  {
    match a
    case Done =>
    case Then(s, r) =>
      ProcessedConcatWhole(r, b, if s.Keep? then budget - 1 else budget);
  }

  /**
   * Running the capped traversal over two stretches of steps: the second is
   * reached only if the first neither used up the budget nor failed, and
   * then with the budget that is left.
   */
  lemma {:induction false} ProcessedConcat(a: Trace, b: Trace, budget: int)
    ensures Processed(Concat(a, b), budget)
         == if Stopped(Processed(a, budget), budget) then Processed(a, budget)
            else Concat(a, Processed(b, budget - |Kept(a)|))
  {
    if Stopped(Processed(a, budget), budget) {
      ProcessedConcatStopped(a, b, budget);
    } else {
      ProcessedConcatWhole(a, b, budget);
    }
  }

  // ---------------------------------------------------------------------
  // What the capped traversal does

  /** Never more paths than the budget; nothing at all when the budget is not positive. */
  lemma {:induction false} ProcessedBound(t: Trace, budget: int)
    ensures budget <= 0 ==> Processed(t, budget) == Done
    ensures |Kept(Processed(t, budget))| <= Max(budget, 0)
  {
    match t
    case Done =>
    case Then(s, r) =>
      if budget > 0 && !IsFailedRead(s) {
        ProcessedBound(r, if s.Keep? then budget - 1 else budget);
      }
  }

  /**
   * The capped run performs an initial stretch of the uncapped traversal;
   * it ends early only at the cap or at a failed listing; a failed listing
   * is its last step; and when the cap is reached the last step is the
   * path that reached it, so no directory is listed after that.
   */
  lemma {:induction false} ProcessedSteps(t: Trace, budget: int)
    ensures var p := Processed(t, budget);
      && IsPrefix(p, t)
      && (p != t ==> Stopped(p, budget))
      && (Failure(p).Some? ==> Last(p) == Some(Read(Failure(p).value, false)))
      && (0 < budget <= |Kept(p)| && Failure(p) == None ==>
            |Kept(p)| == budget && Last(p) == Some(Keep(Kept(p)[budget - 1])))
  {
    ProcessedWhole(t, budget);
    match t
    case Done =>
    case Then(s, r) =>
      if budget > 0 && !IsFailedRead(s) {
        var b' := if s.Keep? then budget - 1 else budget;
        ProcessedSteps(r, b');
        ProcessedBound(r, b');
        var p' := Processed(r, b');
        if p' == Done {
          assert Kept(Then(s, p')) == if s.Keep? then [s.path] else [];
        }
      }
  }

  function Min(a: int, b: int): int { if a < b then a else b }

  function Max(a: int, b: int): int { if a < b then b else a }

  /**
   * When no listing fails, the capped run keeps exactly the first
   * `min(budget, n)` of the `n` paths that the uncapped traversal keeps.
   */
  lemma {:induction false} FirstPaths(t: Trace, budget: int)
    requires Failure(Processed(t, budget)) == None
    ensures Kept(Processed(t, budget)) == Kept(t)[..Min(Max(budget, 0), |Kept(t)|)]
  {
    match t
    case Done =>
    case Then(s, r) =>
      if budget > 0 {
        var b' := if s.Keep? then budget - 1 else budget;
        FirstPaths(r, b');
        var k := Kept(r);
        if s.Keep? {
          assert Kept(t) == [s.path] + k;
          assert Kept(t)[..Min(budget, |Kept(t)|)] == [s.path] + k[..Min(b', |k|)];
        }
      }
  }

  /** A failure in the capped run is a failure of the uncapped traversal. */
  lemma {:induction false} ProcessedFailure(t: Trace, budget: int)
    ensures Failure(Processed(t, budget)).Some? ==> Failure(Processed(t, budget)) == Failure(t)
  {
    match t
    case Done =>
    case Then(s, r) =>
      if budget > 0 && !IsFailedRead(s) {
        ProcessedFailure(r, if s.Keep? then budget - 1 else budget);
      }
  }

  // ---------------------------------------------------------------------
  // collectFiles

  /** With a cap of zero or less nothing is listed and nothing is kept. */
  lemma {:induction false} CollectNonPositive(f: Filters, rootPath: string, root: Listing, maxFiles: int)
    requires maxFiles <= 0
    ensures Collect(f, rootPath, root, maxFiles) == Ok([])
    ensures Reads(Processed(Walk(f, rootPath, root), maxFiles)) == []
  {
  }

  /** The result never holds more than `maxFiles` paths and is the start of the uncapped traversal. */
  lemma {:induction false} CollectIsFirstPaths(f: Filters, rootPath: string, root: Listing, maxFiles: int)
    requires Collect(f, rootPath, root, maxFiles).Ok?
    ensures var files := Collect(f, rootPath, root, maxFiles).value;
      var all := Kept(Walk(f, rootPath, root));
      && |files| <= Max(maxFiles, 0)
      && files == all[..Min(Max(maxFiles, 0), |all|)]
  {
    FirstPaths(Walk(f, rootPath, root), maxFiles);
  }

  lemma {:induction false} ReadableWalk(f: Filters, dir: string, l: Listing)
    requires AllReadable(l)
    ensures Failure(Walk(f, dir, l)) == None
    decreases l
  {
    ReadableEntries(f, dir, l.entries);
  }

  lemma {:induction false} ReadableEntries(f: Filters, dir: string, es: seq<Entry>)
    requires forall i :: 0 <= i < |es| ==> EntryReadable(es[i])
    ensures Failure(WalkEntries(f, dir, es)) == None
    decreases es
  {
    if es != [] {
      var init, e := es[..|es| - 1], es[|es| - 1];
      ReadableEntries(f, dir, init);
      if !Ignored(f, e.name) && e.Dir? {
        assert EntryReadable(e);
        ReadableWalk(f, JoinPath(dir, e.name), e.listing);
      }
      FailureConcat(WalkEntries(f, dir, init), WalkEntry(f, dir, e));
    }
  }

  /** Only a listing that throws makes the collection fail. */
  lemma {:induction false} CollectReadable(f: Filters, rootPath: string, root: Listing, maxFiles: int)
    requires AllReadable(root)
    ensures Collect(f, rootPath, root, maxFiles).Ok?
  {
    ReadableWalk(f, rootPath, root);
    ProcessedFailure(Walk(f, rootPath, root), maxFiles);
  }

  /** A failed collection names a directory whose listing throws, and it was listed. */
  lemma {:induction false} CollectFailure(f: Filters, rootPath: string, root: Listing, maxFiles: int)
    requires Collect(f, rootPath, root, maxFiles).Err?
    ensures var d := Collect(f, rootPath, root, maxFiles).error;
      var p := Processed(Walk(f, rootPath, root), maxFiles);
      && Failure(Walk(f, rootPath, root)) == Some(d)
      && Last(p) == Some(Read(d, false))
  {
    ProcessedFailure(Walk(f, rootPath, root), maxFiles);
    ProcessedSteps(Walk(f, rootPath, root), maxFiles);
  }

  // ---------------------------------------------------------------------
  // Which paths are kept

  /** `p` lies below the directory `dir`. */
  predicate Below(dir: string, p: string)
  {
    |dir| + 1 <= |p| && p[..|dir| + 1] == dir + "/"
  }

  /** The segments of `p` below `dir`. */
  function SegmentsBelow(dir: string, p: string): seq<string>
    requires Below(dir, p)
  {
    Split(p[|dir| + 1..], '/')
  }

  /** Following `segs` from a listing leads through directories to a regular file. */
  predicate Reaches(l: Listing, segs: seq<string>)
    decreases |segs|, 2
  {
    l.Listed? && ReachesIn(l.entries, segs)
  }

  predicate ReachesIn(es: seq<Entry>, segs: seq<string>)
    decreases |segs|, 1
  {
    exists i :: 0 <= i < |es| && EntryReaches(es[i], segs)
  }

  predicate EntryReaches(e: Entry, segs: seq<string>)
    decreases |segs|, 0
  {
    match e
    case File(n) => segs == [n]
    case Dir(n, sub) => |segs| > 1 && segs[0] == n && Reaches(sub, segs[1..])
    case Other(_) => false
  }

  /** No segment contains an ignore pattern and the last one has a supported extension. */
  predicate Admitted(f: Filters, segs: seq<string>)
  {
    segs != [] && (forall k :: 0 <= k < |segs| ==> !Ignored(f, segs[k])) && Supported(f, segs[|segs| - 1])
  }

  /** What a kept path below `dir` satisfies. */
  predicate KeptBelow(f: Filters, dir: string, p: string)
  {
    Below(dir, p) && Admitted(f, SegmentsBelow(dir, p))
    && Extname(p) == Extname(SegmentsBelow(dir, p)[|SegmentsBelow(dir, p)| - 1])
  }

  /**
   * Filter soundness: every path the traversal keeps names a regular file
   * reached through directories only, has a supported extension, and no
   * segment below the root contains an ignore pattern (so nothing under an
   * ignored directory is ever kept).
   */
  lemma {:induction false} WalkSound(f: Filters, dir: string, l: Listing)
    requires WellFormed(l)
    ensures forall p :: p in Kept(Walk(f, dir, l)) ==>
      KeptBelow(f, dir, p) && Reaches(l, SegmentsBelow(dir, p))
    decreases l
  {
    if l.Listed? {
      WalkEntriesSound(f, dir, l.entries);
    }
  }

  lemma {:induction false} WalkEntriesSound(f: Filters, dir: string, es: seq<Entry>)
    requires WellFormedEntries(es)
    ensures forall p :: p in Kept(WalkEntries(f, dir, es)) ==>
      KeptBelow(f, dir, p) && ReachesIn(es, SegmentsBelow(dir, p))
    decreases es
  {
    if es != [] {
      var init, e := es[..|es| - 1], es[|es| - 1];
      WalkEntriesSound(f, dir, init);
      WalkEntrySound(f, dir, e);
      KeptConcat(WalkEntries(f, dir, init), WalkEntry(f, dir, e));
      forall p | p in Kept(WalkEntries(f, dir, es))
        ensures KeptBelow(f, dir, p) && ReachesIn(es, SegmentsBelow(dir, p))
      {
        var segs := SegmentsBelow(dir, p);
        if p in Kept(WalkEntries(f, dir, init)) {
          var i :| 0 <= i < |init| && EntryReaches(init[i], segs);
          assert es[i] == init[i];
        } else {
          assert EntryReaches(es[|es| - 1], segs);
        }
      }
    }
  }

  lemma {:induction false} WalkEntrySound(f: Filters, dir: string, e: Entry)
    requires WellFormedEntry(e)
    ensures forall p :: p in Kept(WalkEntry(f, dir, e)) ==>
      KeptBelow(f, dir, p) && EntryReaches(e, SegmentsBelow(dir, p))
    decreases e, 1
  {
    if Ignored(f, e.name) || e.Other? {
      assert WalkEntry(f, dir, e) == Done;
    } else if e.File? {
      FileEntrySound(f, dir, e.name);
    } else {
      DirEntrySound(f, dir, e.name, e.listing);
    }
  }

  lemma {:induction false} FileEntrySound(f: Filters, dir: string, n: string)
    requires ValidName(n) && !Ignored(f, n)
    ensures forall p :: p in Kept(WalkEntry(f, dir, File(n))) ==>
      KeptBelow(f, dir, p) && EntryReaches(File(n), SegmentsBelow(dir, p))
  {
    if Supported(f, n) {
      KeptFileSound(f, dir, n);
    } else {
      assert Kept(WalkEntry(f, dir, File(n))) == [];
    }
  }

  /** A supported file that is not ignored is kept as itself, one segment below. */
  lemma {:induction false} KeptFileSound(f: Filters, dir: string, n: string)
    requires ValidName(n) && !Ignored(f, n) && Supported(f, n)
    ensures Kept(WalkEntry(f, dir, File(n))) == [JoinPath(dir, n)]
    ensures KeptBelow(f, dir, JoinPath(dir, n)) && EntryReaches(File(n), SegmentsBelow(dir, JoinPath(dir, n)))
  {
    FileSound(f, dir, n);
    assert EntryReaches(File(n), [n]);
  }

  lemma {:induction false} DirEntrySound(f: Filters, dir: string, n: string, sub: Listing)
    requires ValidName(n) && !Ignored(f, n) && WellFormed(sub)
    ensures forall p :: p in Kept(WalkEntry(f, dir, Dir(n, sub))) ==>
      KeptBelow(f, dir, p) && EntryReaches(Dir(n, sub), SegmentsBelow(dir, p))
    decreases Dir(n, sub), 0
  {
    WalkSound(f, JoinPath(dir, n), sub);
    assert WalkEntry(f, dir, Dir(n, sub)) == Walk(f, JoinPath(dir, n), sub);
    forall p | p in Kept(Walk(f, JoinPath(dir, n), sub))
      ensures KeptBelow(f, dir, p) && EntryReaches(Dir(n, sub), SegmentsBelow(dir, p))
    {
      DirSound(f, dir, n, sub, p);
    }
  }

  lemma {:induction false} FileSound(f: Filters, dir: string, n: string)
    requires ValidName(n) && !Ignored(f, n) && Supported(f, n)
    ensures KeptBelow(f, dir, JoinPath(dir, n)) && SegmentsBelow(dir, JoinPath(dir, n)) == [n]
  {
    var p := JoinPath(dir, n);
    assert p[..|dir| + 1] == dir + "/";
    assert p[|dir| + 1..] == n;
    SplitNoSep(n, '/');
    var segs := SegmentsBelow(dir, p);
    assert segs == [n];
    assert segs[|segs| - 1] == n;
    assert Admitted(f, segs);
    BasenameOfJoin(dir, n);
  }

  lemma {:induction false} DirSound(f: Filters, dir: string, n: string, sub: Listing, p: string)
    requires ValidName(n) && !Ignored(f, n)
    requires KeptBelow(f, JoinPath(dir, n), p) && Reaches(sub, SegmentsBelow(JoinPath(dir, n), p))
    ensures KeptBelow(f, dir, p) && EntryReaches(Dir(n, sub), SegmentsBelow(dir, p))
  {
    var s := SegmentsBelow(JoinPath(dir, n), p);
    SegmentsOfJoin(dir, n, p);
    AdmittedCons(f, n, s);
    var t := [n] + s;
    assert SegmentsBelow(dir, p) == t;
    assert t[1..] == s;
    assert EntryReaches(Dir(n, sub), t);
    assert t[|t| - 1] == s[|s| - 1];
  }

  lemma {:induction false} SegmentsOfJoin(dir: string, n: string, p: string)
    requires ValidName(n) && Below(JoinPath(dir, n), p)
    ensures Below(dir, p) && SegmentsBelow(dir, p) == [n] + SegmentsBelow(JoinPath(dir, n), p)
  {
    var d := JoinPath(dir, n);
    var rest := p[|d| + 1..];
    assert p[..|d| + 1] == dir + "/" + n + "/";
    assert p[..|dir| + 1] == (dir + "/" + n + "/")[..|dir| + 1] == dir + "/";
    assert p[|dir| + 1..] == n + "/" + rest;
    SplitAppend(n, rest, '/');
    SplitNoSep(n, '/');
  }

  lemma {:induction false} AdmittedCons(f: Filters, n: string, segs: seq<string>)
    requires !Ignored(f, n) && Admitted(f, segs)
    ensures Admitted(f, [n] + segs)
  {
    var t := [n] + segs;
    assert t[|t| - 1] == segs[|segs| - 1];
    forall k | 0 <= k < |t| ensures !Ignored(f, t[k]) {
      if k > 0 {
        assert t[k] == segs[k - 1];
      }
    }
  }

  /** The path below `dir` that the segments `segs` name. */
  function PathOf(dir: string, segs: seq<string>): string
  {
    dir + "/" + Join(segs, '/')
  }

  /**
   * Completeness of the uncapped traversal: every regular file reached
   * through directories whose names, and its own, pass the filters is kept.
   */
  lemma {:induction false} WalkComplete(f: Filters, dir: string, l: Listing, segs: seq<string>)
    requires Reaches(l, segs) && Admitted(f, segs)
    ensures PathOf(dir, segs) in Kept(Walk(f, dir, l))
    decreases |segs|, 2
  {
    WalkEntriesComplete(f, dir, l.entries, segs);
  }

  lemma {:induction false} WalkEntriesComplete(f: Filters, dir: string, es: seq<Entry>, segs: seq<string>)
    requires ReachesIn(es, segs) && Admitted(f, segs)
    ensures PathOf(dir, segs) in Kept(WalkEntries(f, dir, es))
    decreases |segs|, 1
  {
    var i :| 0 <= i < |es| && EntryReaches(es[i], segs);
    WalkEntryComplete(f, dir, es[i], segs);
    assert es == es[..i] + [es[i]] + es[i + 1..];
    WalkEntriesAppend(f, dir, es[..i] + [es[i]], es[i + 1..]);
    WalkEntriesAppend(f, dir, es[..i], [es[i]]);
    assert WalkEntries(f, dir, [es[i]]) == WalkEntry(f, dir, es[i]) by {
      assert [es[i]][..0] == [];
    }
    var a, b, c := WalkEntries(f, dir, es[..i]), WalkEntry(f, dir, es[i]), WalkEntries(f, dir, es[i + 1..]);
    KeptConcat(Concat(a, b), c);
    KeptConcat(a, b);
  }

  lemma {:induction false} WalkEntryComplete(f: Filters, dir: string, e: Entry, segs: seq<string>)
    requires EntryReaches(e, segs) && Admitted(f, segs)
    ensures PathOf(dir, segs) in Kept(WalkEntry(f, dir, e))
    decreases |segs|, 0
  {
    assert !Ignored(f, segs[0]);
    match e
    case File(n) =>
      assert Kept(WalkEntry(f, dir, e)) == [JoinPath(dir, n)];
    case Dir(n, sub) =>
      var rest := segs[1..];
      assert Admitted(f, rest) by {
        forall k | 0 <= k < |rest| ensures !Ignored(f, rest[k]) {
          assert rest[k] == segs[k + 1];
        }
      }
      WalkComplete(f, JoinPath(dir, n), sub, rest);
      assert PathOf(dir, segs) == PathOf(JoinPath(dir, n), rest);
  }

  /** The scan keeps only admitted regular files below the root. */
  lemma {:induction false} CollectSound(f: Filters, rootPath: string, root: Listing, maxFiles: int)
    requires WellFormed(root)
    requires Collect(f, rootPath, root, maxFiles).Ok?
    ensures forall file :: file in Collect(f, rootPath, root, maxFiles).value ==>
      KeptBelow(f, rootPath, file) && Reaches(root, SegmentsBelow(rootPath, file))
  {
    var t := Walk(f, rootPath, root);
    WalkSound(f, rootPath, root);
    FirstPaths(t, maxFiles);
    forall file | file in Kept(Processed(t, maxFiles)) ensures file in Kept(t) {
      var k :| 0 <= k < |Kept(Processed(t, maxFiles))| && Kept(Processed(t, maxFiles))[k] == file;
    }
  }

  /**
   * A scan that keeps fewer than `maxFiles` paths and does not fail keeps
   * every admitted regular file of the tree.
   */
  lemma {:induction false} CollectComplete(f: Filters, rootPath: string, root: Listing, maxFiles: int, segs: seq<string>)
    requires Reaches(root, segs) && Admitted(f, segs)
    requires Collect(f, rootPath, root, maxFiles).Ok?
    requires |Collect(f, rootPath, root, maxFiles).value| < maxFiles
    ensures PathOf(rootPath, segs) in Collect(f, rootPath, root, maxFiles).value
  {
    WalkComplete(f, rootPath, root, segs);
    FirstPaths(Walk(f, rootPath, root), maxFiles);
  }

  // ---------------------------------------------------------------------
  // The traversal as the source runs it

  /** The entries up to `es[i]`: those before it, then `es[i]` itself. */
  lemma {:induction false} WalkEntriesSnoc(f: Filters, dir: string, es: seq<Entry>, i: nat)
    requires i < |es|
    ensures WalkEntries(f, dir, es[..i + 1]) == Concat(WalkEntries(f, dir, es[..i]), WalkEntry(f, dir, es[i]))
  {
    assert es[..i + 1][..i] == es[..i];
  }

  /**
   * Continuing a run that performed all of `w` without using up the budget
   * or failing: the run over `w` then `step` is `w` followed by the capped
   * run of `step` with the budget left.
   */
  lemma {:induction false} Continue(w: Trace, step: Trace, budget: int)
    requires Processed(w, budget) == w && Failure(w) == None && |Kept(w)| < budget
    ensures var p := Processed(step, budget - |Kept(w)|);
      var q := Processed(Concat(w, step), budget);
      && q == Concat(w, p)
      && Kept(q) == Kept(w) + Kept(p)
      && Reads(q) == Reads(w) + Reads(p)
      && Failure(q) == Failure(p)
      && (!Stopped(p, budget - |Kept(w)|) ==> p == step)
  {
    ProcessedConcatWhole(w, step, budget);
    var p := Processed(step, budget - |Kept(w)|);
    KeptConcat(w, p);
    ReadsConcat(w, p);
    FailureConcat(w, p);
    ProcessedWhole(step, budget - |Kept(w)|);
  }

  /**
   * One more entry of a directory, taken while the run over the entries
   * before it has neither used up the budget nor failed.
   */
  lemma {:induction false} Advance(f: Filters, dir: string, es: seq<Entry>, i: nat, budget: int)
    requires i < |es|
    requires var run := Processed(WalkEntries(f, dir, es[..i]), budget);
      Failure(run) == None && |Kept(run)| < budget
    ensures var run := Processed(WalkEntries(f, dir, es[..i]), budget);
      var p := Processed(WalkEntry(f, dir, es[i]), budget - |Kept(run)|);
      var next := Processed(WalkEntries(f, dir, es[..i + 1]), budget);
      && next == Concat(run, p)
      && Kept(next) == Kept(run) + Kept(p)
      && Reads(next) == Reads(run) + Reads(p)
      && Failure(next) == Failure(p)
  {
    var w := WalkEntries(f, dir, es[..i]);
    ProcessedWhole(w, budget);
    WalkEntriesSnoc(f, dir, es, i);
    Continue(w, WalkEntry(f, dir, es[i]), budget);
  }

  /**
   * Leaving the loop over a directory's entries, either after the last one
   * or once the run has stopped: the run over all the entries is the run
   * so far.
   */
  lemma {:induction false} EntriesStop(f: Filters, dir: string, es: seq<Entry>, i: nat, budget: int)
    requires i <= |es|
    requires i == |es| || Stopped(Processed(WalkEntries(f, dir, es[..i]), budget), budget)
    ensures Processed(WalkEntries(f, dir, es), budget) == Processed(WalkEntries(f, dir, es[..i]), budget)
  {
    if i < |es| {
      assert es == es[..i] + es[i..];
      WalkEntriesAppend(f, dir, es[..i], es[i..]);
      ProcessedConcatStopped(WalkEntries(f, dir, es[..i]), WalkEntries(f, dir, es[i..]), budget);
    } else {
      assert es[..i] == es;
    }
  }

  /** A directory that is listed: the listing, then the run over its entries. */
  lemma {:induction false} ListedRun(f: Filters, dir: string, es: seq<Entry>, budget: int)
    requires budget > 0
    ensures var q := Processed(WalkEntries(f, dir, es), budget);
      var p := Processed(Walk(f, dir, Listed(es)), budget);
      Kept(p) == Kept(q) && Reads(p) == [dir] + Reads(q) && Failure(p) == Failure(q)
  {
  }

  /** A directory whose listing throws: the run is that failed listing alone. */
  lemma {:induction false} UnreadableRun(f: Filters, dir: string, budget: int)
    requires budget > 0
    ensures var p := Processed(Walk(f, dir, Unreadable), budget);
      Kept(p) == [] && Reads(p) == [dir] && Failure(p) == Some(dir)
  {
  }

  /** A file that is not ignored is kept, if supported, while the budget is positive. */
  lemma {:induction false} FileRun(f: Filters, dir: string, n: string, budget: int)
    requires budget > 0 && !Ignored(f, n)
    ensures var step := WalkEntry(f, dir, File(n));
      var p := Processed(step, budget);
      && p == step
      && Kept(p) == (if Supported(f, n) then [JoinPath(dir, n)] else [])
      && Reads(p) == []
      && Failure(p) == None
  {
  }

  /**
   * The state `collectFiles` shares with its inner `traverseDirectory`: the
   * `result` array it pushes to and the cap. `listed` records, for the
   * proofs, every directory whose listing was requested, in order.
   */
  class Collector {
    const filters: Filters
    const maxFiles: int
    var result: seq<string>
    ghost var listed: seq<string>

    constructor (filters: Filters, maxFiles: int)
      ensures this.filters == filters && this.maxFiles == maxFiles && result == [] && listed == []
    {
      this.filters := filters;
      this.maxFiles := maxFiles;
      result := [];
      listed := [];
    }

    /**
     * `traverseDirectory(dirPath)`: appends to `result` the paths of the
     * capped traversal, with the budget left on entry, and reports the
     * directory whose listing threw, if any.
     */
    method TraverseDirectory(dirPath: string, listing: Listing) returns (error: Option<string>)
      modifies this
      ensures var p := Processed(Walk(filters, dirPath, listing), maxFiles - |old(result)|);
        && result == old(result) + Kept(p)
        && listed == old(listed) + Reads(p)
        && error == Failure(p)
      decreases listing
    {
      if |result| >= maxFiles {
        return None;
      }
      listed := listed + [dirPath];
      match listing
      case Unreadable =>
        UnreadableRun(filters, dirPath, maxFiles - |result|);
        error := Some(dirPath);
      case Listed(entries) =>
        ListedRun(filters, dirPath, entries, maxFiles - |result|);
        error := TraverseEntries(dirPath, entries);
    }

    /**
     * The loop of `traverseDirectory` over the entries of `dirPath`, which
     * stops when the cap is reached or a listing below throws.
     */
    method TraverseEntries(dirPath: string, entries: seq<Entry>) returns (error: Option<string>)
      requires |result| < maxFiles
      modifies this
      ensures var p := Processed(WalkEntries(filters, dirPath, entries), maxFiles - |old(result)|);
        && result == old(result) + Kept(p)
        && listed == old(listed) + Reads(p)
        && error == Failure(p)
      decreases entries, 1
    {
      ghost var budget := maxFiles - |result|;
      ghost var result0, listed0 := result, listed;
      ghost var run := Done;
      assert entries[..0] == [];
      error := None;
      var i := 0;
      while i < |entries|
        invariant 0 <= i <= |entries|
        invariant run == Processed(WalkEntries(filters, dirPath, entries[..i]), budget)
        invariant result == result0 + Kept(run)
        invariant listed == listed0 + Reads(run)
        invariant Failure(run) == None
      {
        if |result| >= maxFiles {
          break;
        }
        ghost var p := Processed(WalkEntry(filters, dirPath, entries[i]), budget - |Kept(run)|);
        Advance(filters, dirPath, entries, i, budget);
        assert maxFiles - |result| == budget - |Kept(run)|;
        var e := VisitEntry(dirPath, entries[i]);
        Associate(result0, Kept(run), Kept(p));
        Associate(listed0, Reads(run), Reads(p));
        run := Concat(run, p);
        if e.Some? {
          EntriesStop(filters, dirPath, entries, i + 1, budget);
          return e;
        }
        i := i + 1;
      }
      EntriesStop(filters, dirPath, entries, i, budget);
    }

    /**
     * One turn of `traverseDirectory`'s loop, taken while the cap is not
     * reached: an ignored entry is skipped, a directory is traversed, a
     * supported file is pushed, anything else is passed over.
     */
    method VisitEntry(dirPath: string, entry: Entry) returns (error: Option<string>)
      requires |result| < maxFiles
      modifies this
      ensures var p := Processed(WalkEntry(filters, dirPath, entry), maxFiles - |old(result)|);
        && result == old(result) + Kept(p)
        && listed == old(listed) + Reads(p)
        && error == Failure(p)
      decreases entry, 0
    {
      var fullPath := JoinPath(dirPath, entry.name);
      if Ignored(filters, entry.name) {
        return None;
      }
      match entry
      case Dir(_, sub) =>
        error := TraverseDirectory(fullPath, sub);
      case File(name) =>
        FileRun(filters, dirPath, name, maxFiles - |result|);
        if Supported(filters, name) {
          result := result + [fullPath];
        }
        error := None;
      case Other(_) =>
        error := None;
    }
  }

  /**
   * `collectFiles(rootPath, maxFiles)`: the paths of the capped traversal,
   * or the directory whose listing threw. `listed` is every directory whose
   * listing was requested.
   */
  method CollectFiles(rootPath: string, root: Listing, maxFiles: int)
    returns (files: Result<seq<string>, string>, ghost listed: seq<string>)
    ensures files == Collect(SourceFilters, rootPath, root, maxFiles)
    ensures listed == Reads(Processed(Walk(SourceFilters, rootPath, root), maxFiles))
  {
    var collector := new Collector(SourceFilters, maxFiles);
    var error := collector.TraverseDirectory(rootPath, root);
    ghost var p := Processed(Walk(SourceFilters, rootPath, root), maxFiles);
    assert collector.result == Kept(p) && error == Failure(p) by {
      assert collector.result == [] + Kept(p);
    }
    if error.Some? {
      files := Err(error.value);
    } else {
      files := Ok(collector.result);
    }
    listed := collector.listed;
    assert listed == [] + Reads(p);
  }
}
