/**
 * The script from the parsed options on: scan the input into `newlog`, then
 * show it on the screen or write it to the output file
 * (authlog-parser.rb:130-171).
 */
module AuthlogParser {
  import opened Wrappers
  import opened CommandLine
  import opened Scan
  import opened Output

  /**
   * The output step (authlog-parser.rb:159-171): `puts` each entry when no
   * output file was given, otherwise open the file for appending or for
   * writing and write each entry and a newline.
   */
  method Report(options: Options, newlog: seq<string>, screen: Console, fs: FileSystem)
    modifies screen, fs
    ensures options.fileOut.None? ==>
      screen.shown == old(screen.shown) + Printed(newlog) && fs.files == old(fs.files)
    ensures options.fileOut.Some? ==> (screen.shown == old(screen.shown) &&
      fs.files == old(fs.files)[options.fileOut.value :=
        Written(TextOf(old(fs.files), options.fileOut.value), newlog, options.append)])
  {
    if options.fileOut == None {
      PrintLog(screen, newlog);
    } else {
      WriteLog(fs, options.fileOut.value, options.append, newlog);
    }
  }

  /** The input lines, filtered by the mode and sent where the options say. */
  method Run(options: Options, lines: seq<string>, screen: Console, fs: FileSystem)
    modifies screen, fs
    ensures options.fileOut.None? ==>
      screen.shown == old(screen.shown) + Printed(Collect(options.mode, lines)) && fs.files == old(fs.files)
    ensures options.fileOut.Some? ==> (screen.shown == old(screen.shown) &&
      fs.files == old(fs.files)[options.fileOut.value :=
        Written(TextOf(old(fs.files), options.fileOut.value), Collect(options.mode, lines), options.append)])
  {
    var newlog := ParseLog(options.mode, lines);
    Report(options, newlog, screen, fs);
  }

  /**
   * The screen and a freshly written file show the same text, one line per
   * entry, and reading that text back by lines gives `newlog` again.
   */
  lemma OutputReadsBack(mode: Mode, lines: seq<string>)
    ensures Printed(Collect(mode, lines)) == Written("", Collect(mode, lines), false)
    ensures SplitLines(Written("", Collect(mode, lines), false)) == Collect(mode, lines)
  {
    CollectOneLine(mode, lines);
    PrintedIsLines(Collect(mode, lines));
    SplitLinesOfLines(Collect(mode, lines));
  }

  /** Appending keeps the old text, and reading it back gives old lines, then `newlog`. */
  lemma AppendReadsBack(earlier: seq<string>, mode: Mode, lines: seq<string>)
    requires forall k :: 0 <= k < |earlier| ==> '\n' !in earlier[k]
    ensures SplitLines(Written(Lines(earlier), Collect(mode, lines), true)) == earlier + Collect(mode, lines)
  {
    var log := Collect(mode, lines);
    CollectOneLine(mode, lines);
    LinesAppend(earlier, log);
    OneLineEach(earlier, log);
    SplitLinesOfLines(earlier + log);
  }
}
