/**
 * The entry the script builds for a matched line (authlog-parser.rb:138-153):
 * whether the mode keeps the line, and the text pushed onto `newlog`.
 */
module Entries {
  import opened Wrappers
  import opened Ansi
  import opened CommandLine
  import opened LogPattern

  /** Which state words a mode lets through: all of them, or one side. */
  predicate Keeps(mode: Mode, state: string) {
    match mode
    case All => true
    case Accepted => state == "Accepted"
    case Failed => state == "Failed" || state == "refused"
  }

  /**
   * The `if`/`elsif` chain of the loop body (authlog-parser.rb:138-153),
   * branch for branch: the entry pushed for groups `g` in `mode`, or `None`
   * when nothing is pushed.
   */
  function Entry(mode: Mode, g: Captures): (r: Option<string>)
    ensures r.Some? <==> Keeps(mode, g.state)
  {
    if mode == Accepted && g.state == "Accepted" then
      Some("On: " + g.timestamp + "  state: " + Bold(Green(g.state)) + "   with: " + Bold(Cyan(g.user)) + "   from: " + g.ip)
    else if mode == Failed && (g.state == "Failed" || g.state == "refused") then
      if g.state == "Failed" then
        Some("On: " + g.timestamp + "  state: " + Bold(Red(g.state)) + "   with: " + Bold(Cyan(g.user)) + "   from: " + g.ip)
      else
        Some("On: " + g.timestamp + "  state: " + Bold(Red(g.state)) + "  from: " + g.ip)
    else if mode == All then
      if g.state == "Accepted" then
        Some("On: " + g.timestamp + "  state: " + Bold(Green(g.state)) + "   with: " + Bold(Cyan(g.user)) + "   from: " + g.ip)
      else if g.state == "refused" then
        Some("On: " + g.timestamp + "  state: " + Bold(Red(g.state)) + "  from: " + g.ip)
      else
        Some("On: " + g.timestamp + "  state: " + Bold(Red(g.state)) + "   with: " + Bold(Cyan(g.user)) + "   from: " + g.ip)
    else None
  }

  // The layout of an entry, field by field

  /** The state word in bold green when accepted, bold red otherwise. */
  function Paint(state: string): string {
    if state == "Accepted" then Bold(Green(state)) else Bold(Red(state))
  }

  /** The user field; `refused` lines have none. */
  function WithField(g: Captures): string {
    if g.state == "refused" then "" else "   with: " + Bold(Cyan(g.user)) + " "
  }

  /** An entry laid out by fields, whatever the mode. */
  function Display(g: Captures): string {
    "On: " + g.timestamp + "  state: " + Paint(g.state) + WithField(g) + "  from: " + g.ip
  }

  /**
   * Every entry a mode produces is the field layout of its groups: the text
   * depends on the state word only, not on the mode that let it through.
   */
  lemma EntryIsDisplay(mode: Mode, g: Captures)
    ensures Entry(mode, g).Some? ==> Entry(mode, g).value == Display(g)
  {
    LongLayout(g.timestamp, Bold(Green(g.state)), Bold(Cyan(g.user)), g.ip);
    LongLayout(g.timestamp, Bold(Red(g.state)), Bold(Cyan(g.user)), g.ip);
    ShortLayout(g.timestamp, Bold(Red(g.state)), g.ip);
  }

  /** The entry with a user field, regrouped by fields. */
  lemma LongLayout(t: string, shown: string, user: string, ip: string)
    ensures "On: " + t + "  state: " + shown + "   with: " + user + "   from: " + ip
      == "On: " + t + "  state: " + shown + ("   with: " + user + " ") + "  from: " + ip
  {
    assert "   from: " == " " + "  from: ";
  }

  /** The entry without one, regrouped by fields. */
  lemma ShortLayout(t: string, shown: string, ip: string)
    ensures "On: " + t + "  state: " + shown + "  from: " + ip
      == "On: " + t + "  state: " + shown + "" + "  from: " + ip
  {
  }

  /** A line kept by a filtering mode gives the same entry under ALL. */
  lemma SameEntryUnderAll(mode: Mode, g: Captures)
    ensures Entry(mode, g).Some? ==> Entry(All, g) == Entry(mode, g)
  {
    EntryIsDisplay(mode, g);
    EntryIsDisplay(All, g);
  }

  /**
   * Every entry opens with "On: ", the timestamp verbatim and the painted
   * state word, and closes with "  from: " and the IP group verbatim (so
   * with two spaces before the address, one of them the group's own).
   */
  lemma EntryFrame(mode: Mode, g: Captures)
    ensures Entry(mode, g).Some? ==> exists mid ::
      Entry(mode, g).value == "On: " + g.timestamp + "  state: " + Paint(g.state) + mid + "  from: " + g.ip
  {
    EntryIsDisplay(mode, g);
    if Entry(mode, g).Some? {
      assert Entry(mode, g).value
        == "On: " + g.timestamp + "  state: " + Paint(g.state) + WithField(g) + "  from: " + g.ip;
    }
  }

  /** Accepted and Failed entries carry the user, in bold cyan. */
  lemma EntryHasUser(mode: Mode, g: Captures)
    ensures Entry(mode, g).Some? && g.state != "refused" ==> exists a, b ::
      Entry(mode, g).value == a + "   with: " + Bold(Cyan(g.user)) + b
  {
    EntryIsDisplay(mode, g);
    if Entry(mode, g).Some? && g.state != "refused" {
      var head := "On: " + g.timestamp + "  state: " + Paint(g.state);
      Regroup(head, "   with: ", Bold(Cyan(g.user)), "  from: ", g.ip);
      assert Entry(mode, g).value == head + "   with: " + Bold(Cyan(g.user)) + (" " + "  from: " + g.ip);
    }
  }

  lemma Regroup(head: string, field: string, user: string, sep: string, ip: string)
    ensures head + (field + user + " ") + sep + ip == head + field + user + (" " + sep + ip)
  {
  }

  // The characters of the groups

  predicate IsIpChar(c: char) { c == '.' || IsDigit(c) }

  /** A timestamp: three word characters, then spaces, digits and colons. */
  lemma TimestampChars(t: string)
    requires IsTimestamp(t)
    ensures |t| >= 14 && IsWordChar(t[0]) && IsWordChar(t[1]) && IsWordChar(t[2]) && t[3] == ' '
    ensures forall k :: 3 <= k < |t| ==> t[k] == ' ' || t[k] == ':' || IsDigit(t[k])
  {
  }

  lemma DottedChars(line: string, a: nat, j: nat)
    requires j <= |line| && Dotted(line, a, j).Some?
    ensures forall k :: a <= k < Dotted(line, a, j).value ==> IsIpChar(line[k])
  {
  }

  lemma QuadChars(line: string, a: nat, j: nat)
    requires j <= |line| && QuadEnd(line, a, j).Some?
    ensures forall k :: a <= k < QuadEnd(line, a, j).value ==> IsIpChar(line[k])
  {
    var b := Dotted(line, a, j).value;
    var c := Dotted(line, b, j).value;
    var d := Dotted(line, c, j).value;
    DottedChars(line, a, j);
    DottedChars(line, b, j);
    DottedChars(line, c, j);
  }

  /** An IP group: a space, then digits and dots. */
  lemma IpChars(s: string)
    requires IsIp(s)
    ensures |s| >= 8 && s[0] == ' '
    ensures forall k :: 1 <= k < |s| ==> IsIpChar(s[k])
  {
    QuadChars(s, 1, |s|);
  }

  // What an entry does not contain

  /** No entry built from well-formed groups spans more than one line. */
  lemma DisplayOneLine(g: Captures)
    requires WellFormed(g)
    ensures '\n' !in Display(g)
  {
    TimestampChars(g.timestamp);
    IpChars(g.ip);
    assert '\n' !in g.timestamp;
    assert '\n' !in g.user;
    assert '\n' !in g.ip;
    assert '\n' !in Paint(g.state);
    assert '\n' !in WithField(g);
  }

  lemma EntryOneLine(mode: Mode, g: Captures)
    requires WellFormed(g)
    ensures Entry(mode, g).Some? ==> '\n' !in Entry(mode, g).value
  {
    EntryIsDisplay(mode, g);
    DisplayOneLine(g);
  }

  /** The text "with: " starting at `s[k]`. */
  predicate WithAt(s: string, k: nat) { WordAt(s, k, "with: ") }

  /**
   * In `a + t + r`, an 'h' is never followed by ':' when neither `a` nor `r`
   * has an 'h' and `t` has one only among its first three characters, none
   * of which is followed by ':'.
   */
  lemma NoHColon(a: string, t: string, r: string)
    requires 'h' !in a && 'h' !in r && |t| >= 4
    requires forall k :: 3 <= k < |t| ==> t[k] != 'h'
    requires t[1] != ':' && t[2] != ':' && t[3] != ':'
    ensures forall k :: 0 <= k < |a + t + r| - 1 && (a + t + r)[k] == 'h' ==> (a + t + r)[k + 1] != ':'
  {
    var s := a + t + r;
    forall k | 0 <= k < |s| - 1 && s[k] == 'h' ensures s[k + 1] != ':' {
      if |a| <= k < |a| + |t| {
        assert s[k] == t[k - |a|];
        assert s[k + 1] == t[k + 1 - |a|];
      }
    }
  }

  /** Entries for refused connections have no "with: " anywhere. */
  lemma RefusedHasNoUser(g: Captures)
    requires WellFormed(g) && g.state == "refused"
    ensures forall k :: !WithAt(Display(g), k)
  {
    TimestampChars(g.timestamp);
    IpChars(g.ip);
    var r := "  state: " + Paint(g.state) + "" + "  from: " + g.ip;
    assert 'h' !in g.ip;
    assert 'h' !in Paint(g.state);
    assert 'h' !in r;
    assert Display(g) == "On: " + g.timestamp + r;
    NoHColon("On: ", g.timestamp, r);
    forall k ensures !WithAt(Display(g), k) {
      WithAtChars(Display(g), k);
    }
  }

  lemma WithAtChars(s: string, k: nat)
    ensures WithAt(s, k) ==> k + 4 < |s| && s[k + 3] == 'h' && s[k + 4] == ':'
  {
    if WithAt(s, k) {
      assert s[k + 3] == "with: "[3];
      assert s[k + 4] == "with: "[4];
    }
  }

  /** Hence the entries of a mode for refused lines carry no user. */
  lemma RefusedEntryHasNoUser(mode: Mode, g: Captures)
    requires WellFormed(g) && g.state == "refused"
    ensures Entry(mode, g).Some? ==> forall k :: !WithAt(Entry(mode, g).value, k)
  {
    EntryIsDisplay(mode, g);
    RefusedHasNoUser(g);
  }
}
