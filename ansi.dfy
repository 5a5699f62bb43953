/**
 * The colour helpers that the script adds to Ruby's String class:
 * each one wraps its receiver between a fixed ANSI escape sequence
 * that switches an attribute on and one that switches it off again.
 */
module Ansi {
  import opened Wrappers

  /** The escape character written `\033` in the script. */
  const ESC: char := 27 as char

  const RED_ON: string := [ESC] + "[31m"
  const GREEN_ON: string := [ESC] + "[32m"
  const CYAN_ON: string := [ESC] + "[36m"
  /** Resets the foreground colour; closes red, green and cyan. */
  const COLOR_OFF: string := [ESC] + "[0m"
  const BOLD_ON: string := [ESC] + "[1m"
  /** Ends bold (normal intensity). */
  const BOLD_OFF: string := [ESC] + "[22m"

  /** `on` immediately followed by `s` and then `off`. */
  function Wrap(on: string, off: string, s: string): (r: string)
    ensures |r| == |on| + |s| + |off|
  {
    on + s + off
  }

  /** Strips a leading `on` and a trailing `off`, if both are there. */
  function Unwrap(on: string, off: string, t: string): (r: Option<string>)
    ensures r.Some? ==> |r.value| == |t| - |on| - |off|
  {
    if |on| + |off| <= |t| && t[..|on|] == on && t[|t| - |off|..] == off
    then Some(t[|on|..|t| - |off|])
    else None
  }

  /** Unwrapping what was wrapped gives the original text back. */
  lemma UnwrapWrap(on: string, off: string, s: string)
    ensures Unwrap(on, off, Wrap(on, off, s)) == Some(s)
  {
    var t := Wrap(on, off, s);
    assert t[..|on|] == on;
    assert t[|t| - |off|..] == off;
    assert t[|on|..|t| - |off|] == s;
  }

  /** Conversely, whatever unwraps was a wrapped text. */
  lemma WrapUnwrap(on: string, off: string, t: string)
    requires Unwrap(on, off, t).Some?
    ensures t == Wrap(on, off, Unwrap(on, off, t).value)
  {
    var s := Unwrap(on, off, t).value;
    assert t == t[..|on|] + t[|on|..|t| - |off|] + t[|t| - |off|..];
  }

  /** `String#red` (authlog-parser.rb:32). */
  function Red(s: string): (r: string)
    ensures |r| == |s| + |RED_ON| + |COLOR_OFF|
  {
    Wrap(RED_ON, COLOR_OFF, s)
  }

  /** `String#green` (authlog-parser.rb:33). */
  function Green(s: string): (r: string)
    ensures |r| == |s| + |GREEN_ON| + |COLOR_OFF|
  {
    Wrap(GREEN_ON, COLOR_OFF, s)
  }

  /** `String#cyan` (authlog-parser.rb:34). */
  function Cyan(s: string): (r: string)
    ensures |r| == |s| + |CYAN_ON| + |COLOR_OFF|
  {
    Wrap(CYAN_ON, COLOR_OFF, s)
  }

  /** `String#bold` (authlog-parser.rb:35); `x.green.bold` is `Bold(Green(x))`. */
  function Bold(s: string): (r: string)
    ensures |r| == |s| + |BOLD_ON| + |BOLD_OFF|
  {
    Wrap(BOLD_ON, BOLD_OFF, s)
  }

  /** Each colour helper can be undone: stripping its escapes gives `s` back. */
  lemma Uncolour(s: string)
    ensures Unwrap(RED_ON, COLOR_OFF, Red(s)) == Some(s)
    ensures Unwrap(GREEN_ON, COLOR_OFF, Green(s)) == Some(s)
    ensures Unwrap(CYAN_ON, COLOR_OFF, Cyan(s)) == Some(s)
    ensures Unwrap(BOLD_ON, BOLD_OFF, Bold(s)) == Some(s)
  {
    UnwrapWrap(RED_ON, COLOR_OFF, s);
    UnwrapWrap(GREEN_ON, COLOR_OFF, s);
    UnwrapWrap(CYAN_ON, COLOR_OFF, s);
    UnwrapWrap(BOLD_ON, BOLD_OFF, s);
  }
}
