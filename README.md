# authlog-parser in Dafny

A model of `authlog-parser.rb`, a script that reads an SSH authentication
log (`/var/log/auth.log`). It picks out the lines that record an accepted
login, a failed login or a refused connection. For each such line it
builds a coloured one-line entry: the time, the state word, the user and
the remote address. The entries are collected into `newlog`, filtered by
the mode given with `-m` (`all`, `accepted` or `failed`). They are then
printed on the screen, or written to the file named with `-o`. With `-a`
that file is appended to instead of overwritten.

The modules follow the script from top to bottom:

- `Ansi`: the colour methods the script adds to `String` (`red`, `green`,
  `cyan`, `bold`).
- `CommandLine`: the mode constants, the `options` hash (a class whose
  fields the option handlers update) and the `case` of the `-m` handler.
- `LogPattern`: the regular expression and its four capture groups.
  - `IsMatch` is a declarative reading of the regex. The line is
    `pre + g0 + " " + x + ": " + g1 + y + g2 + " from" + g3 + rest`, with
    each group of its shape and `x`, `y` free of newlines.
  - `Match` is a search. It finds groups exactly when such a
    decomposition exists, trying candidates in the order the regex
    engine prefers.
  - `Search` supplies the bounded first/last searches that `Match` uses.
- `Entries`: whether a mode keeps a matched line, and the exact entry text
  of each branch of the `if`/`elsif` chain.
- `Scan`: the `while line = file.gets` loop, as a method with a loop
  invariant. It is specified by `Collect`, and `Collect` is related to an
  independent description: the groups of the matched lines, filtered by
  the mode, then laid out field by field.
- `Output`: `puts` on a console, files as a map from names to texts, and
  the write and append loops. Reading the written text back by lines gives
  the entries again.
- `AuthlogParser`: the script from the parsed options on.

Input is the sequence of lines the file yields. Each line is taken as
`gets` returns it. The screen is the text shown so far. A file is its text.

The unknown-mode path follows the code. The script prints
`Mode <word> not valid. Selecting all the entries.` but leaves the mode
as it was. The message is accurate only when no earlier `-m` chose
another mode. A description of the program that says the mode falls back
to `all` disagrees with the code here; the model follows the code.

## Model

| member | source | states |
|---|---|---|
| Ansi.Wrap | authlog-parser.rb:32-35 | the wrapped text is as long as the opening escape, the text and the closing escape together |
| Ansi.Unwrap | authlog-parser.rb:32-35 | stripping the escapes leaves a text shorter by exactly their lengths |
| Ansi.UnwrapWrap | authlog-parser.rb:32-35 | stripping the escapes from a wrapped text gives the text back |
| Ansi.WrapUnwrap | authlog-parser.rb:32-35 | any text that can be stripped is the wrapping of what remains |
| Ansi.Red | authlog-parser.rb:32 | `s.red` is as long as `s` with the red-on and colour-off escapes added (its text is `Wrap` of them around `s`) |
| Ansi.Green | authlog-parser.rb:33 | `s.green` is as long as `s` with the green-on and colour-off escapes added (its text is `Wrap` of them around `s`) |
| Ansi.Cyan | authlog-parser.rb:34 | `s.cyan` is as long as `s` with the cyan-on and colour-off escapes added (its text is `Wrap` of them around `s`) |
| Ansi.Bold | authlog-parser.rb:35 | `s.bold` is as long as `s` with the bold-on and bold-off escapes added (its text is `Wrap` of them around `s`) |
| Ansi.Uncolour | authlog-parser.rb:32-35 | each of the four helpers is undone by stripping its own escape pair, giving `s` back |
| CommandLine.Code | authlog-parser.rb:41-43 | the constants are 0, 1 and 2; ALL is the only mode coded 0 |
| CommandLine.FromCode | authlog-parser.rb:41-43 | exactly the integers 0 to 2 stand for a mode |
| CommandLine.CodeRoundTrip | authlog-parser.rb:41-43 | the integer coding of the modes is a bijection onto 0..2 |
| CommandLine.ModeName | authlog-parser.rb:71-78 | the word for each mode is at least three characters |
| CommandLine.Recognise | authlog-parser.rb:72-78 | a recognised word is exactly the name of the mode it selects |
| CommandLine.RecogniseName | authlog-parser.rb:72-78 | each mode's name selects it, and no other word or missing argument does |
| CommandLine.Decode | authlog-parser.rb:72-81 | after `-m arg` the mode is the one `arg` names, or unchanged when `arg` names none |
| CommandLine.Complaint | authlog-parser.rb:79-80 | the warning is printed exactly for an unrecognised or missing word, and it interpolates that word (empty when missing) |
| CommandLine.DecodeIdempotent | authlog-parser.rb:72-81 | repeating the same `-m` option changes nothing further |
| CommandLine.DecodeAllLast | authlog-parser.rb:71-82 | with several `-m` options the last recognised one wins; when none is recognised the starting mode stays |
| CommandLine.Options.constructor | authlog-parser.rb:46 | no output file, no append, mode ALL |
| CommandLine.Options.SetOutput | authlog-parser.rb:63-65 | `-o name` sets the output file and leaves the other options alone |
| CommandLine.Options.SetAppend | authlog-parser.rb:67-69 | `-a` turns append on and leaves the other options alone |
| CommandLine.Options.SetMode | authlog-parser.rb:71-82 | `-m arg` leaves the mode `Decode` gives and returns the warning `Complaint` gives; nothing else changes |
| LogPattern.TimestampEnd | authlog-parser.rb:129 | a timestamp found at `i` is at least 14 characters and ends within the line |
| LogPattern.TimestampForms | authlog-parser.rb:129 | the timestamp scan accepts a stretch exactly when it has one of the four forms of `[\w]{3}\ ?\ \d{1,2}\ \d{2}:\d{2}:\d{2}` |
| LogPattern.IpEnd | authlog-parser.rb:129 | the IP group found is the longest one at that position, and is found exactly when one exists |
| LogPattern.UserEnd | authlog-parser.rb:129 | the greedy `[\w-]+` group found is the longest one followed by " from" and an IP group, and is found exactly when one exists |
| LogPattern.UserStart | authlog-parser.rb:129 | the greedy `.*` stops at the latest place where the user group can start, and a place is found exactly when one exists |
| LogPattern.AnyEnd | authlog-parser.rb:129 | the greedy `.+` stops at the latest place where ": " and a state word follow, and a place is found exactly when one exists |
| LogPattern.StateWordsDiffer | authlog-parser.rb:129 | the three state words start with different letters, so at most one fits at a position |
| LogPattern.MatchStart | authlog-parser.rb:129-133 | the match starts at the leftmost position where the whole regex matches; there is none when it matches nowhere |
| LogPattern.Locate | authlog-parser.rb:129-133 | positions found are a match laid out in the line; none are found only when no such positions exist |
| LogPattern.IsMatchLaid | authlog-parser.rb:129 | every decomposition of the line is a match laid out at positions, with the same groups |
| LogPattern.LaidIsMatch | authlog-parser.rb:129 | every match laid out at positions is a decomposition of the line |
| LogPattern.Match | authlog-parser.rb:129-137 | groups are returned only for a decomposition of the line, and they have their shapes; there are none exactly when the line has no decomposition |
| Entries.Entry | authlog-parser.rb:138-153 | an entry is pushed exactly when the mode keeps the state word: ACCEPTED keeps "Accepted", FAILED keeps "Failed" and "refused", ALL keeps every word |
| Entries.EntryIsDisplay | authlog-parser.rb:139-152 | every branch's text is the field layout of the groups, so the text depends on the state word and not on the mode |
| Entries.SameEntryUnderAll | authlog-parser.rb:139-152 | a line kept by ACCEPTED or FAILED gives the identical entry under ALL |
| Entries.EntryFrame | authlog-parser.rb:139-152 | every entry starts with "On: ", the timestamp verbatim, "  state: " and the painted state, and ends with "  from: " and the IP group verbatim |
| Entries.EntryHasUser | authlog-parser.rb:139-152 | every non-refused entry contains "   with: " followed by the user in bold cyan |
| Entries.TimestampChars | authlog-parser.rb:129 | a timestamp is three word characters and a space, then only spaces, digits and colons |
| Entries.IpChars | authlog-parser.rb:129 | an IP group is a space followed by digits and dots |
| Entries.DisplayOneLine | authlog-parser.rb:139-152 | the layout of well-formed groups holds no newline |
| Entries.EntryOneLine | authlog-parser.rb:139-152 | no entry built from well-formed groups spans two lines |
| Entries.RefusedHasNoUser | authlog-parser.rb:144-150 | the layout of a refused line contains "with: " nowhere |
| Entries.RefusedEntryHasNoUser | authlog-parser.rb:144-150 | no mode's entry for a refused line contains "with: " anywhere |
| Scan.Results | authlog-parser.rb:132-133 | one match result per input line, and the groups of every match have their shapes |
| Scan.ResultsAt | authlog-parser.rb:132-133 | the result for line `k` is the regex's result on that line |
| Scan.Contribution | authlog-parser.rb:134-153 | a line adds at most one entry, nothing when unmatched (`next`), and one exactly when the mode keeps its state word |
| Scan.Select | authlog-parser.rb:131-157 | the loop adds no more entries than it sees lines |
| Scan.Step | authlog-parser.rb:132-156 | one more line seen grows `newlog` by that line's contribution |
| Scan.HandleLine | authlog-parser.rb:133-153 | the body of the loop pushes exactly that line's contribution |
| Scan.ParseLog | authlog-parser.rb:130-157 | the loop leaves `newlog` equal to `Collect` of the input lines |
| Scan.Captured | authlog-parser.rb:133-137 | the matched groups are no more than the results |
| Scan.Kept | authlog-parser.rb:138-153 | every group kept has a state word the mode keeps |
| Scan.Displayed | authlog-parser.rb:139-152 | one layout per group |
| Scan.SelectIsKeptCaptures | authlog-parser.rb:131-157 | `newlog` is exactly the layouts of the matched groups the mode keeps, in input order |
| Scan.ContributionIsDisplay | authlog-parser.rb:134-153 | a line's contribution is its layout when it matches and the mode keeps it, and nothing otherwise |
| Scan.CollectIsKeptCaptures | authlog-parser.rb:131-157 | over the input lines, `newlog` is the layouts of the kept matched groups, in input order |
| Scan.SelectAppend | authlog-parser.rb:131-157 | the loop over two stretches of results is the loop over each in turn |
| Scan.ResultsAppend | authlog-parser.rb:132-133 | the results of two stretches of input are the results of each in turn |
| Scan.CollectAppend | authlog-parser.rb:131-157 | `newlog` of two stretches of input is `newlog` of the first followed by `newlog` of the second |
| Scan.UnmatchedAddsNothing | authlog-parser.rb:133-136 | a line the regex does not match adds nothing to `newlog` |
| Scan.NoMatchNoEntries | authlog-parser.rb:133-136 | without any match `newlog` is empty |
| Scan.EntriesFromMatches | authlog-parser.rb:133-153 | every entry is the entry of some result that has groups |
| Scan.EntryOfMatchedLine | authlog-parser.rb:133-153 | every entry of `newlog` is the entry of an input line the regex matches |
| Scan.AllKeepsEveryMatch | authlog-parser.rb:146-153 | in mode ALL there are as many entries as matched lines |
| Scan.ModesPartition | authlog-parser.rb:138-153 | when every state is a word the regex admits, ALL has as many entries as ACCEPTED and FAILED together |
| Scan.CollectPartition | authlog-parser.rb:138-153 | on any input, ALL shows as many entries as ACCEPTED and FAILED between them |
| Scan.SelectOneLine | authlog-parser.rb:139-152 | results with well-formed groups give entries without newlines |
| Scan.CollectOneLine | authlog-parser.rb:131-157 | no entry of `newlog` holds a newline |
| Output.PutsText | authlog-parser.rb:163 | `puts s` shows `s` and then ends in a newline, adding at most one character |
| Output.Printed | authlog-parser.rb:162-164 | the screen text is at least one character per entry |
| Output.Lines | authlog-parser.rb:168-170 | the written text is at least one character per entry |
| Output.Written | authlog-parser.rb:166-170 | in append mode the file keeps at least its old length |
| Output.LinesAppend | authlog-parser.rb:168-170 | writing two logs one after the other writes their concatenation |
| Output.AppendTwice | authlog-parser.rb:166-170 | appending two logs in turn is writing both at once |
| Output.OverwriteForgets | authlog-parser.rb:166 | with 'w' the result does not depend on the old text; with 'a' it is the old text followed by what 'w' would write |
| Output.PutsOneLine | authlog-parser.rb:163 | `puts` of a text without a newline shows the text and one newline |
| Output.PrintedIsLines | authlog-parser.rb:162-170 | when no entry holds a newline, the screen shows exactly what the file gets |
| Output.LineEnd | authlog-parser.rb:169 | the first newline of a text, with none before it |
| Output.SplitLines | authlog-parser.rb:169 | reading a text by lines gives lines without newlines |
| Output.LineEndOf | authlog-parser.rb:169 | the first newline after a single-line entry is the one written after it |
| Output.SplitFirst | authlog-parser.rb:169 | a written entry is read back as the first line |
| Output.LinesCons | authlog-parser.rb:168-170 | the written text of a log is its first entry, a newline, and the text of the rest |
| Output.SplitLinesOfLines | authlog-parser.rb:168-170 | reading the written text back by lines gives the entries, when none holds a newline |
| Output.OneLineEach | authlog-parser.rb:166-170 | two logs of single-line entries make one |
| Output.Console.constructor | authlog-parser.rb:163 | the screen starts empty |
| Output.Console.Puts | authlog-parser.rb:163 | `puts s` adds exactly `PutsText(s)` to the screen |
| Output.FileSystem.constructor | authlog-parser.rb:167 | the file system holds the given files |
| Output.FileSystem.Open | authlog-parser.rb:166-167 | afterwards the file exists; 'w' empties it, 'a' keeps its text; other files are unchanged |
| Output.FileSystem.Write | authlog-parser.rb:169 | `file.write(s)` adds `s` to the end of that file only |
| Output.PrintLog | authlog-parser.rb:162-164 | the loop adds `Printed(newlog)` to the screen |
| Output.WriteLog | authlog-parser.rb:166-170 | the named file ends up as `Written` of its old text, `newlog` and the append flag; no other file changes |
| AuthlogParser.Report | authlog-parser.rb:159-171 | without an output file the entries go to the screen and no file changes; with one, the screen is unchanged and only that file is updated |
| AuthlogParser.Run | authlog-parser.rb:130-171 | the screen or the output file gets exactly the entries `Collect` selects from the input lines |
| AuthlogParser.OutputReadsBack | authlog-parser.rb:159-171 | the screen and a freshly written file show the same text, and reading it back by lines gives `newlog` |
| AuthlogParser.AppendReadsBack | authlog-parser.rb:166-170 | after appending to a file of earlier single-line entries, reading it back gives the earlier entries followed by `newlog` |

## Left out

- Option parsing itself (authlog-parser.rb:58-102): the `OptionParser` library, `-v`, `-h`, the banner and the unknown-option rescue. These are library calls and process exit; note that the bare `exit` at :101 and :111 ends with status 0 even on an error. The model starts from the handlers for `-o`, `-a` and `-m`.
- Choosing the input file (authlog-parser.rb:104-113): the default path and the `File.exist?` test are file-system queries. The input is given as its sequence of lines.
- Opening and reading the input (`use_file`, `gets`, authlog-parser.rb:52-56, 131-132): replaced by that sequence of lines.
- Real I/O for output: the screen is a text that grows, files are a map from names to texts. Write errors and closing files are not modelled.
- LogPattern.Match: the search tries the candidates in the order the Ruby engine's backtracking prefers (leftmost start, then greedy parts longest first). Each level of the search is proved to make the first choice in that order. That the result equals the groups Ruby returns is argued, not proved against a model of the engine.
- LogPattern.TimestampEnd: reads the timestamp with a deterministic scan instead of backtracking over ` ?` and `\d{1,2}`; TimestampForms proves both readings accept the same stretches.
- CommandLine.Options.SetMode: a `-m` with no word is the argument `None`. Ruby passes `nil`, which interpolates as an empty string.
- Ansi.Red, Ansi.Green, Ansi.Cyan, Ansi.Bold: their own contracts state the length of the result. The exact text is their definition by `Wrap`, and Ansi.Uncolour states it as a round trip.
- Ruby strings are byte or Unicode sequences with encodings; here a string is a sequence of characters, and `\w` and `\d` are their ASCII classes.
