/**
 * The options the script collects from its command line
 * (authlog-parser.rb:41-46, 63-82): where to write the result, whether to
 * append to that file, and which entries to keep.
 */
module CommandLine {
  import opened Wrappers

  /** The three modes, the integer constants ALL, ACCEPTED and FAILED. */
  datatype Mode = All | Accepted | Failed

  /** The script's integer for a mode (authlog-parser.rb:41-43). */
  function Code(m: Mode): (n: nat)
    ensures n <= 2
    ensures m == All <==> n == 0
  {
    match m
    case All => 0
    case Accepted => 1
    case Failed => 2
  }

  /** The mode an integer stands for, if any. */
  function FromCode(n: int): (r: Option<Mode>)
    ensures r.Some? <==> 0 <= n <= 2
  {
    if n == 0 then Some(All)
    else if n == 1 then Some(Accepted)
    else if n == 2 then Some(Failed)
    else None
  }

  /** The integers are a faithful encoding of the modes. */
  lemma CodeRoundTrip(m: Mode, n: int)
    ensures FromCode(Code(m)) == Some(m)
    ensures FromCode(n).Some? ==> Code(FromCode(n).value) == n
  {
  }

  /** The word that selects a mode after `-m` (authlog-parser.rb:71). */
  function ModeName(m: Mode): (w: string)
    ensures |w| >= 3
  {
    match m
    case All => "all"
    case Accepted => "accepted"
    case Failed => "failed"
  }

  /**
   * The `case` of the `-m` handler (authlog-parser.rb:72-78): the mode a
   * word of the command line names, or `None`. The argument is optional
   * (`[all|accepted|failed]`), so it may be missing altogether.
   */
  function Recognise(arg: Option<string>): (r: Option<Mode>)
    ensures r.Some? ==> arg == Some(ModeName(r.value))
  {
    match arg
    case None => None
    case Some(w) =>
      if w == "all" then Some(All)
      else if w == "accepted" then Some(Accepted)
      else if w == "failed" then Some(Failed)
      else None
  }

  /** Each mode is selected by its own name and by no other word. */
  lemma {:induction false} RecogniseName(m: Mode, arg: Option<string>)
    ensures Recognise(Some(ModeName(m))) == Some(m)
    ensures Recognise(arg) == Some(m) <==> arg == Some(ModeName(m))
  {
    match m
    case All =>
    case Accepted =>
      assert "accepted" != "all" by { assert "accepted"[1] != "all"[1]; }
    case Failed =>
      assert "failed" != "all" by { assert "failed"[0] != "all"[0]; }
      assert "failed" != "accepted" by { assert "failed"[0] != "accepted"[0]; }
  }

  /**
   * The mode after `-m arg` when the mode was `current` before: the named
   * mode, or `current` unchanged when the word names none
   * (authlog-parser.rb:72-81).
   */
  function Decode(arg: Option<string>, current: Mode): (m: Mode)
    ensures Recognise(arg).None? ==> m == current
    ensures Recognise(arg).Some? ==> arg == Some(ModeName(m))
  {
    match Recognise(arg)
    case None => current
    case Some(r) => r
  }

  /**
   * The message printed for a word that names no mode
   * (authlog-parser.rb:80); a missing argument interpolates as nothing.
   */
  function Complaint(arg: Option<string>): (r: Option<string>)
    ensures r.Some? <==> Recognise(arg).None?
    ensures r.Some? ==> exists w: string ::
      r.value == "Mode " + w + " not valid. Selecting all the entries." &&
      (arg.Some? ==> w == arg.value) && (arg.None? ==> w == "")
  {
    match Recognise(arg)
    case Some(_) => None
    case None =>
      var w := match arg case Some(a) => a case None => "";
      Some("Mode " + w + " not valid. Selecting all the entries.")
  }

  /** Repeating the same `-m` changes nothing more. */
  lemma DecodeIdempotent(arg: Option<string>, current: Mode)
    ensures Decode(arg, Decode(arg, current)) == Decode(arg, current)
  {
  }

  /**
   * Several `-m` options are handled in command-line order (OptionParser
   * calls the handler once per occurrence), starting from `current`.
   */
  function DecodeAll(args: seq<Option<string>>, current: Mode): (m: Mode)
    decreases |args|
  {
    if args == [] then current
    else DecodeAll(args[1..], Decode(args[0], current))
  }

  /**
   * The mode in force is the one named by the last recognised word, or the
   * starting mode when no word names a mode.
   */
  lemma {:induction false} DecodeAllLast(args: seq<Option<string>>, current: Mode)
    ensures (forall i :: 0 <= i < |args| ==> Recognise(args[i]).None?) ==>
      DecodeAll(args, current) == current
    ensures forall i ::
      (0 <= i < |args| && Recognise(args[i]).Some? && forall j :: i < j < |args| ==> Recognise(args[j]).None?)
      ==> DecodeAll(args, current) == Recognise(args[i]).value
    decreases |args|
  {
    if args != [] {
      var tail := args[1..];
      var next := Decode(args[0], current);
      DecodeAllLast(tail, next);
      assert forall j :: 0 <= j < |tail| ==> tail[j] == args[j + 1];
      forall i | 0 <= i < |args| && Recognise(args[i]).Some? &&
        (forall j :: i < j < |args| ==> Recognise(args[j]).None?)
        ensures DecodeAll(args, current) == Recognise(args[i]).value
      {
        if i > 0 {
          assert Recognise(tail[i - 1]).Some?;
          assert forall j :: i - 1 < j < |tail| ==> Recognise(tail[j]).None? by {
            forall j | i - 1 < j < |tail| ensures Recognise(tail[j]).None? {
              assert tail[j] == args[j + 1];
            }
          }
        } else {
          assert forall j :: 0 <= j < |tail| ==> Recognise(tail[j]).None? by {
            forall j | 0 <= j < |tail| ensures Recognise(tail[j]).None? {
              assert tail[j] == args[j + 1];
            }
          }
        }
      }
    }
  }

  /**
   * The `options` hash (authlog-parser.rb:46) that the option handlers
   * update in place.
   */
  class Options {
    var fileOut: Option<string>
    var append: bool
    var mode: Mode

    /** `{fileOut: nil, append: false, mode: ALL}`. */
    constructor ()
      ensures fileOut == None && !append && mode == All
    {
      fileOut := None;
      append := false;
      mode := All;
    }

    /** `-o filename` (authlog-parser.rb:63-65). */
    method SetOutput(name: string)
      modifies this
      ensures fileOut == Some(name)
      ensures append == old(append) && mode == old(mode)
    {
      fileOut := Some(name);
    }

    /** `-a` (authlog-parser.rb:67-69). */
    method SetAppend()
      modifies this
      ensures append
      ensures fileOut == old(fileOut) && mode == old(mode)
    {
      append := true;
    }

    /**
     * `-m [word]` (authlog-parser.rb:71-82): selects the named mode, or
     * leaves the mode as it was and returns the message to print.
     */
    method SetMode(arg: Option<string>) returns (message: Option<string>)
      modifies this
      ensures mode == Decode(arg, old(mode))
      ensures message == Complaint(arg)
      ensures fileOut == old(fileOut) && append == old(append)
    {
      match arg {
        case Some(w) =>
          if w == "all" {
            mode := All;
            message := None;
          } else if w == "accepted" {
            mode := Accepted;
            message := None;
          } else if w == "failed" {
            mode := Failed;
            message := None;
          } else {
            message := Some("Mode " + w + " not valid. Selecting all the entries.");
          }
        case None =>
          message := Some("Mode " + "" + " not valid. Selecting all the entries.");
      }
    }
  }
}
