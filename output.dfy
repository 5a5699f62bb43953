/**
 * Where `newlog` goes (authlog-parser.rb:159-171): onto the screen with
 * `puts`, or into the output file, each entry followed by a newline. A file
 * is its text; the file system is a map from names to texts.
 */
module Output {

  /** The text `puts s` shows: `s`, and a newline unless it ends in one. */
  function PutsText(s: string): (r: string)
    ensures |s| <= |r| <= |s| + 1 && r[..|s|] == s
    ensures |r| > 0 && r[|r| - 1] == '\n'
  {
    if |s| > 0 && s[|s| - 1] == '\n' then s else s + "\n"
  }

  /** What `newlog.each { |elem| puts elem }` shows. */
  function Printed(log: seq<string>): (r: string)
    ensures |log| <= |r|
  {
    if log == [] then "" else Printed(log[..|log| - 1]) + PutsText(log[|log| - 1])
  }

  /** What `file.write("#{elem}\n")` for each entry writes. */
  function Lines(log: seq<string>): (r: string)
    ensures |log| <= |r|
  {
    if log == [] then "" else Lines(log[..|log| - 1]) + log[|log| - 1] + "\n"
  }

  /**
   * The file's text after writing `log` to it: opened with 'a' it keeps
   * what was there, opened with 'w' it starts empty (authlog-parser.rb:166).
   */
  function Written(existing: string, log: seq<string>, append: bool): (r: string)
    ensures append ==> |r| >= |existing|
  {
    (if append then existing else "") + Lines(log)
  }

  lemma {:induction false} LinesAppend(a: seq<string>, b: seq<string>)
    ensures Lines(a + b) == Lines(a) + Lines(b)
    decreases |b|
  {
    if b == [] {
      assert a + b == a;
    } else {
      var b' := b[..|b| - 1];
      LinesAppend(a, b');
      assert (a + b)[..|a + b| - 1] == a + b';
      assert (a + b)[|a + b| - 1] == b[|b| - 1];
    }
  }

  /** Appending twice is appending everything once. */
  lemma AppendTwice(existing: string, a: seq<string>, b: seq<string>, append: bool)
    ensures Written(Written(existing, a, append), b, true) == Written(existing, a + b, append)
  {
    LinesAppend(a, b);
  }

  /** Writing with 'w' does not depend on what the file held. */
  lemma OverwriteForgets(x: string, y: string, log: seq<string>)
    ensures Written(x, log, false) == Written(y, log, false)
    ensures Written(x, log, true) == x + Written(y, log, false)
  {
  }

  /** The screen shows what the file would get, when no entry ends in a newline. */
  lemma {:induction false} PrintedIsLines(log: seq<string>)
    requires forall k :: 0 <= k < |log| ==> '\n' !in log[k]
    ensures Printed(log) == Lines(log)
  {
    if log != [] {
      var init := log[..|log| - 1];
      assert forall k :: 0 <= k < |init| ==> init[k] == log[k];
      PrintedIsLines(init);
      PutsOneLine(log[|log| - 1]);
    }
  }

  /** `puts` adds the newline to a text that has none. */
  lemma PutsOneLine(e: string)
    requires '\n' !in e
    ensures PutsText(e) == e + "\n"
  {
    assert |e| > 0 ==> e[|e| - 1] in e;
  }

  // Reading the text back

  /** Where the first newline of `s` is, or `|s|` when there is none. */
  function LineEnd(s: string): (n: nat)
    ensures n <= |s| && '\n' !in s[..n]
    ensures n < |s| ==> s[n] == '\n'
  {
    if s == [] || s[0] == '\n' then 0
    else
      var n := LineEnd(s[1..]);
      assert s[..n + 1] == [s[0]] + s[1..][..n];
      n + 1
  }

  /** The lines of a text, each without its newline; a last line needs none. */
  function SplitLines(s: string): (r: seq<string>)
    ensures forall k :: 0 <= k < |r| ==> '\n' !in r[k]
    decreases |s|
  {
    if s == [] then []
    else
      var n := LineEnd(s);
      if n == |s| then [s] else [s[..n]] + SplitLines(s[n + 1..])
  }

  lemma LineEndOf(e: string, rest: string)
    requires '\n' !in e
    ensures LineEnd(e + "\n" + rest) == |e|
    decreases |e|
  {
    if e != [] {
      assert (e + "\n" + rest)[1..] == e[1..] + "\n" + rest;
      assert e[0] in e;
      LineEndOf(e[1..], rest);
    }
  }

  /** The lines of `e + "\n"` followed by more text. */
  lemma SplitFirst(e: string, rest: string)
    requires '\n' !in e
    ensures SplitLines(e + "\n" + rest) == [e] + SplitLines(rest)
  {
    var s := e + "\n" + rest;
    LineEndOf(e, rest);
    assert s[..|e|] == e;
    assert s[|e| + 1..] == rest;
  }

  /** The text written for entries without newlines, as `Lines` from the front. */
  lemma {:induction false} LinesCons(e: string, log: seq<string>)
    ensures Lines([e] + log) == e + "\n" + Lines(log)
  {
    LinesAppend([e], log);
    assert [e][..0] == [];
  }

  /** Reading the written lines back gives the entries (none holding a newline). */
  lemma {:induction false} SplitLinesOfLines(log: seq<string>)
    requires forall k :: 0 <= k < |log| ==> '\n' !in log[k]
    ensures SplitLines(Lines(log)) == log
    decreases |log|
  {
    if log != [] {
      var tail := log[1..];
      assert log == [log[0]] + tail;
      assert forall k :: 0 <= k < |tail| ==> tail[k] == log[k + 1];
      SplitLinesOfLines(tail);
      LinesCons(log[0], tail);
      SplitFirst(log[0], Lines(tail));
    }
  }

  /** Two logs of single lines make one. */
  lemma OneLineEach(a: seq<string>, b: seq<string>)
    requires forall k :: 0 <= k < |a| ==> '\n' !in a[k]
    requires forall k :: 0 <= k < |b| ==> '\n' !in b[k]
    ensures forall k :: 0 <= k < |a + b| ==> '\n' !in (a + b)[k]
  {
    forall k | 0 <= k < |a + b| ensures '\n' !in (a + b)[k] {
      if k >= |a| {
        assert (a + b)[k] == b[k - |a|];
      }
    }
  }

  /** The screen. */
  class Console {
    var shown: string

    constructor ()
      ensures shown == ""
    {
      shown := "";
    }

    /** `puts s`. */
    method Puts(s: string)
      modifies this
      ensures shown == old(shown) + PutsText(s)
    {
      if |s| > 0 && s[|s| - 1] == '\n' {
        shown := shown + s;
      } else {
        shown := shown + s + "\n";
      }
    }
  }

  /** The files, by name. */
  class FileSystem {
    var files: map<string, string>

    constructor (files: map<string, string>)
      ensures this.files == files
    {
      this.files := files;
    }

    /**
     * `open(name, mode)`: 'w' creates the file or empties it, 'a' creates it
     * if it is missing and keeps its text otherwise.
     */
    method Open(name: string, append: bool)
      modifies this
      ensures name in files
      ensures files == old(files)[name := if append && name in old(files) then old(files)[name] else ""]
    {
      if append && name in files {
        files := files[name := files[name]];
      } else {
        files := files[name := ""];
      }
    }

    /** `file.write(s)` on a file opened before. */
    method Write(name: string, s: string)
      requires name in files
      modifies this
      ensures files == old(files)[name := old(files)[name] + s]
    {
      files := files[name := files[name] + s];
    }
  }

  /** The text of file `name`; a missing file reads as empty. */
  function TextOf(files: map<string, string>, name: string): string {
    if name in files then files[name] else ""
  }

  /** `newlog.each { |elem| puts elem }` (authlog-parser.rb:162-164). */
  method PrintLog(screen: Console, log: seq<string>)
    modifies screen
    ensures screen.shown == old(screen.shown) + Printed(log)
  {
    var i := 0;
    while i < |log|
      invariant 0 <= i <= |log|
      invariant screen.shown == old(screen.shown) + Printed(log[..i])
    {
      assert log[..i + 1][..i] == log[..i];
      screen.Puts(log[i]);
      i := i + 1;
    }
    assert log[..i] == log;
  }

  /** `use_file(name, mode)` writing each entry and a newline (authlog-parser.rb:166-170). */
  method WriteLog(fs: FileSystem, name: string, append: bool, log: seq<string>)
    modifies fs
    ensures fs.files == old(fs.files)[name := Written(TextOf(old(fs.files), name), log, append)]
  {
    ghost var start := if append then TextOf(fs.files, name) else "";
    fs.Open(name, append);
    var i := 0;
    assert start + Lines(log[..0]) == start by {
      assert log[..0] == [];
    }
    while i < |log|
      invariant 0 <= i <= |log|
      invariant fs.files == old(fs.files)[name := start + Lines(log[..i])]
    {
      assert log[..i + 1][..i] == log[..i];
      assert start + Lines(log[..i + 1]) == start + Lines(log[..i]) + (log[i] + "\n");
      fs.Write(name, log[i] + "\n");
      i := i + 1;
    }
    assert log[..i] == log;
  }
}
