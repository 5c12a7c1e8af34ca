/**
 * `extractCodeSnippets`: the first five collected files, each shown by
 * its base name and at most its first fifty lines inside a fenced block
 * tagged with its extension. Reading a file is a parameter: `read(file)`
 * is `Some(content)` when `fs.promises.readFile` succeeds and `None` when
 * it throws, in which case the file contributes nothing.
 */
module Snippets {
  import opened Wrappers
  import opened Text
  import opened Paths

  /** At most this many files are sampled. */
  const SampleSize: nat := 5

  /** At most this many lines of a file are shown. */
  const LineLimit: nat := 50

  /** The files that are sampled: the first five, or all of them when there are no more than five. */
  function Sample(files: seq<string>): (sample: seq<string>)
    ensures sample <= files
    ensures |sample| == if |files| <= SampleSize then |files| else SampleSize
  {
    if |files| <= SampleSize then files else files[..SampleSize]
  }

  /** The first fifty lines of the content, where a line is what lies between newlines. */
  function FirstLines(content: string): (lines: seq<string>)
    ensures lines <= Split(content, '\n')
    ensures |lines| == if |Split(content, '\n')| <= LineLimit then |Split(content, '\n')| else LineLimit
  {
    var all := Split(content, '\n');
    if |all| <= LineLimit then all else all[..LineLimit]
  }

  /** `s.replace(c, '')` with a one-character pattern: the first `c`, if any, removed. */
  function RemoveFirst(s: string, c: char): (r: string)
    ensures c !in s ==> r == s
    ensures c in s ==> |r| == |s| - 1
  {
    if s == [] then s
    else if s[0] == c then s[1..]
    else [s[0]] + RemoveFirst(s[1..], c)
  }

  /** The language tag of a file's fence: its extension without the dot. */
  function FenceTag(file: string): string
  {
    RemoveFirst(Extname(file), '.')
  }

  /** What precedes the lines of a file in its block. */
  function Header(file: string): string
  {
    ("\nFile: " + Basename(file) + "\n") + ("```" + FenceTag(file) + "\n")
  }

  /** What follows the lines of a file in its block. */
  const Footer := "\n```\n"

  /** The block appended for a file that was read. */
  function Block(file: string, content: string): string
  {
    Header(file) + Join(FirstLines(content), '\n') + Footer
  }

  /** The blocks of `files` that `read` can read, in order. */
  function SnippetsOf(files: seq<string>, read: string -> Option<string>): string
  {
    if files == [] then ""
    else
      var before := SnippetsOf(files[..|files| - 1], read);
      var file := files[|files| - 1];
      match read(file)
      case None => before
      case Some(content) => before + Block(file, content)
  }

  /** The four appends of the loop body add one block. */
  lemma AppendBlock(s: string, file: string, content: string)
    ensures s + ("\nFile: " + Basename(file) + "\n") + ("```" + RemoveFirst(Extname(file), '.') + "\n")
        + Join(FirstLines(content), '\n') + Footer
      == s + Block(file, content)
  {
    var a, b := "\nFile: " + Basename(file) + "\n", "```" + RemoveFirst(Extname(file), '.') + "\n";
    var c := Join(FirstLines(content), '\n');
    assert a + b == Header(file);
    assert s + a + b + c + Footer == s + (a + b + c + Footer);
  }

  /** `extractCodeSnippets`: the blocks of the readable files among the sampled ones. */
  method ExtractCodeSnippets(files: seq<string>, read: string -> Option<string>) returns (snippets: string)
    ensures snippets == SnippetsOf(Sample(files), read)
  {
    snippets := "";
    var sampleFiles := if |files| <= SampleSize then files else files[..SampleSize];
    var i := 0;
    while i < |sampleFiles|
      invariant 0 <= i <= |sampleFiles|
      invariant snippets == SnippetsOf(sampleFiles[..i], read)
    {
      TakeOneMore(sampleFiles, i);
      snippets := AppendSnippet(snippets, sampleFiles[i], read, sampleFiles[..i]);
      i := i + 1;
    }
    assert sampleFiles[..i] == sampleFiles;
    assert sampleFiles == Sample(files);
  }

  /** The first `i + 1` elements are the first `i` and then the next one. */
  lemma TakeOneMore<T>(s: seq<T>, i: nat)
    requires i < |s|
    ensures s[..i + 1] == s[..i] + [s[i]]
  {
  }

  /**
   * One turn of the loop: the `try` block appends the file's block, and
   * the `catch` block, reached when the file cannot be read, appends nothing.
   */
  method AppendSnippet(snippets: string, file: string, read: string -> Option<string>, ghost done: seq<string>)
    returns (result: string)
    requires snippets == SnippetsOf(done, read)
    ensures result == SnippetsOf(done + [file], read)
  {
    result := snippets;
    match read(file) {
      case None =>
        UnreadableAddsNothing(done, file, read);
      case Some(content) =>
        ReadableAddsBlock(done, file, content, read);
        var extension := Extname(file);
        var fileName := Basename(file);
        var lines := FirstLines(content);
        AppendBlock(result, file, content);
        result := result + ("\nFile: " + fileName + "\n");
        result := result + ("```" + RemoveFirst(extension, '.') + "\n");
        result := result + Join(lines, '\n');
        result := result + Footer;
    }
  }

  // ---------------------------------------------------------------------
  // What a block shows

  /** The lines shown of a file are the start of its content. */
  lemma {:induction false} ShownIsStart(content: string)
    ensures Join(FirstLines(content), '\n') <= content
  {
    var all := Split(content, '\n');
    JoinSplit(content, '\n');
    JoinPrefix(all, |FirstLines(content)|, '\n');
    assert all[..|FirstLines(content)|] == FirstLines(content);
  }

  /** A file of at most fifty lines is shown whole. */
  lemma {:induction false} ShownWhole(content: string)
    requires Count(content, '\n') < LineLimit
    ensures Join(FirstLines(content), '\n') == content
  {
    SplitCount(content, '\n');
    JoinSplit(content, '\n');
  }

  /** A file of more than fifty lines is cut after its fiftieth line. */
  lemma {:induction false} ShownCut(content: string)
    requires Count(content, '\n') >= LineLimit
    ensures var shown := Join(FirstLines(content), '\n');
      shown < content && Count(shown, '\n') == LineLimit - 1
  {
    var all := Split(content, '\n');
    var lines := FirstLines(content);
    SplitCount(content, '\n');
    ShownIsStart(content);
    assert lines == all[..LineLimit];
    forall k | 0 <= k < |lines| ensures '\n' !in lines[k] {
      assert lines[k] == all[k];
    }
    JoinCount(lines, '\n');
    var shown := Join(lines, '\n');
    assert Count(shown, '\n') == LineLimit - 1;
    assert shown != content;
  }

  /** The separators in a join of separator-free parts: one between each two. */
  lemma {:induction false} JoinCount(parts: seq<string>, sep: char)
    requires parts != []
    requires forall k :: 0 <= k < |parts| ==> sep !in parts[k]
    ensures Count(Join(parts, sep), sep) == |parts| - 1
    decreases |parts|
  {
    CountAbsent(parts[0], sep);
    if |parts| > 1 {
      JoinCount(parts[1..], sep);
      CountAppend(parts[0] + [sep], Join(parts[1..], sep), sep);
      CountAppend(parts[0], [sep], sep);
    }
  }

  /** A block is the header, the lines shown, and the closing fence; the lines shown start the content. */
  lemma {:induction false} BlockBody(file: string, content: string)
    ensures var b := Block(file, content);
      var h := |Header(file)|;
      h + |Footer| <= |b| && b[h..|b| - |Footer|] == Join(FirstLines(content), '\n') && b[h..|b| - |Footer|] <= content
  {
    var b := Block(file, content);
    var h := Header(file);
    var body := Join(FirstLines(content), '\n');
    assert b == h + body + Footer;
    assert b[|h|..|b| - |Footer|] == body;
    ShownIsStart(content);
  }

  /** The fence of a file with an extension is tagged with the extension without its dot, and is plain otherwise. */
  lemma {:induction false} FenceTagOfExtension(file: string)
    ensures var e := Extname(file);
      FenceTag(file) == (if e == "" then "" else e[1..]) && '.' !in FenceTag(file)
  {
    var e := Extname(file);
    if e != "" {
      assert e == ['.'] + e[1..];
    }
  }

  // ---------------------------------------------------------------------
  // Which files are shown

  /** Files after the fifth are never read. */
  lemma {:induction false} SampleIgnoresRest(files: seq<string>, more: seq<string>, read: string -> Option<string>)
    requires |files| >= SampleSize
    ensures SnippetsOf(Sample(files + more), read) == SnippetsOf(Sample(files), read)
  {
    assert (files + more)[..SampleSize] == files[..SampleSize];
    assert Sample(files + more) == Sample(files);
  }

  /** A file that cannot be read adds nothing to the snippets. */
  lemma {:induction false} UnreadableAddsNothing(files: seq<string>, file: string, read: string -> Option<string>)
    requires read(file).None?
    ensures SnippetsOf(files + [file], read) == SnippetsOf(files, read)
  {
    assert (files + [file])[..|files|] == files;
  }

  /** When no sampled file can be read, the snippets are empty. */
  lemma {:induction false} NothingReadable(files: seq<string>, read: string -> Option<string>)
    requires forall k :: 0 <= k < |files| ==> read(files[k]).None?
    ensures SnippetsOf(files, read) == ""
    decreases |files|
  {
    if files != [] {
      var init := files[..|files| - 1];
      forall k | 0 <= k < |init| ensures read(init[k]).None? {
        assert init[k] == files[k];
      }
      NothingReadable(init, read);
    }
  }

  /** The snippets of two runs of files are the snippets of each, in order. */
  lemma {:induction false} SnippetsAppend(a: seq<string>, b: seq<string>, read: string -> Option<string>)
    ensures SnippetsOf(a + b, read) == SnippetsOf(a, read) + SnippetsOf(b, read)
    decreases |b|
  {
    if b == [] {
      assert a + b == a;
    } else {
      var init, file := b[..|b| - 1], b[|b| - 1];
      assert b == init + [file];
      assert a + b == (a + init) + [file];
      SnippetsAppend(a, init, read);
      AppendStep(a, init, file, read);
    }
  }

  /** One more file after two runs: its block, if any, goes to the end of the second. */
  lemma AppendStep(a: seq<string>, init: seq<string>, file: string, read: string -> Option<string>)
    requires SnippetsOf(a + init, read) == SnippetsOf(a, read) + SnippetsOf(init, read)
    ensures SnippetsOf((a + init) + [file], read) == SnippetsOf(a, read) + SnippetsOf(init + [file], read)
  {
    if read(file).None? {
      UnreadableAddsNothing(a + init, file, read);
      UnreadableAddsNothing(init, file, read);
    } else {
      ReadableStep(a, init, file, read(file).value, read);
    }
  }

  lemma ReadableStep(a: seq<string>, init: seq<string>, file: string, content: string, read: string -> Option<string>)
    requires read(file) == Some(content)
    requires SnippetsOf(a + init, read) == SnippetsOf(a, read) + SnippetsOf(init, read)
    ensures SnippetsOf((a + init) + [file], read) == SnippetsOf(a, read) + SnippetsOf(init + [file], read)
  {
    ReadableAddsBlock(a + init, file, content, read);
    ReadableAddsBlock(init, file, content, read);
    var x, y, z := SnippetsOf(a, read), SnippetsOf(init, read), Block(file, content);
    Associate(x, y, z);
  }


  /**
   * A file that cannot be read does not end the loop: the snippets are
   * those of the other files, wherever it stands among them.
   */
  lemma {:induction false} UnreadableAnywhere(a: seq<string>, file: string, b: seq<string>, read: string -> Option<string>)
    requires read(file).None?
    ensures SnippetsOf(a + [file] + b, read) == SnippetsOf(a + b, read)
  {
    SnippetsAppend(a + [file], b, read);
    SnippetsAppend(a, [file], read);
    SnippetsAppend(a, b, read);
    assert SnippetsOf([file], read) == "" by {
      assert [file][..0] == [];
    }
  }

  /** Appending a readable file appends its block. */
  lemma {:induction false} ReadableAddsBlock(files: seq<string>, file: string, content: string, read: string -> Option<string>)
    requires read(file) == Some(content)
    ensures SnippetsOf(files + [file], read) == SnippetsOf(files, read) + Block(file, content)
  {
    assert (files + [file])[..|files|] == files;
  }
}
