/**
 * The regular expression of authlog-parser.rb:129,
 *
 *   ([\w]{3}\ ?\ \d{1,2}\ \d{2}:\d{2}:\d{2}) .+\: (Failed|Accepted|refused).*( [\w-]+) from( IP)
 *
 * where IP is four runs of one to three digits separated by dots.
 * `IsMatch` says declaratively when a line decomposes around the four
 * capture groups; `Match` is a search that finds such a decomposition
 * exactly when one exists (sound and complete), and that tries the
 * candidates in the order the regex engine's backtracking prefers them.
 *
 * The shapes are stated on a stretch `line[i..j]` of the line, by index,
 * and on a whole string `s` as the stretch `s[0..|s|]`.
 */
module LogPattern {
  import opened Wrappers
  import Search

  /** The four capture groups of a match: `groups[0]` to `groups[3]`. */
  datatype Captures = Captures(timestamp: string, state: string, user: string, ip: string)

  /**
   * The text of a line outside the groups: before the match (`pre`), matched
   * by `.+` (`x`), matched by `.*` (`y`), and after the match (`rest`).
   */
  datatype Filler = Filler(pre: string, x: string, y: string, rest: string)

  // Character classes: Ruby's `\d` and `\w` are ASCII-only.

  predicate IsDigit(c: char) { '0' <= c <= '9' }

  predicate IsWordChar(c: char) { 'a' <= c <= 'z' || 'A' <= c <= 'Z' || IsDigit(c) || c == '_' }

  /** `[\w-]` */
  predicate IsUserChar(c: char) { IsWordChar(c) || c == '-' }

  // ---------------------------------------------------------------------
  // The shape of each part of the regex, on `line[i..j]`

  /** What `.` (without the multi-line flag) may match, repeated over `line[i..j]`. */
  predicate NoNewlineIn(line: string, i: nat, j: nat) {
    i <= j <= |line| && forall k :: i <= k < j ==> line[k] != '\n'
  }

  /** `\d{2}:\d{2}:\d{2}` at `line[k..k + 8]`. */
  predicate ClockAt(line: string, k: nat) {
    k + 8 <= |line| && IsDigit(line[k]) && IsDigit(line[k + 1]) && line[k + 2] == ':'
    && IsDigit(line[k + 3]) && IsDigit(line[k + 4]) && line[k + 5] == ':'
    && IsDigit(line[k + 6]) && IsDigit(line[k + 7])
  }

  /**
   * The first group at `line[i..]`, with `sp` spaces taken by `\ ?` (0 or 1)
   * and `dg` digits taken by `\d{1,2}` (1 or 2); it is `13 + sp + dg` long.
   */
  predicate TimestampFormAt(line: string, i: nat, sp: nat, dg: nat) {
    sp <= 1 && 1 <= dg <= 2 && i + 13 + sp + dg <= |line|
    && IsWordChar(line[i]) && IsWordChar(line[i + 1]) && IsWordChar(line[i + 2])
    && line[i + 3] == ' ' && line[i + 3 + sp] == ' '
    && IsDigit(line[i + 4 + sp]) && IsDigit(line[i + 3 + sp + dg])
    && line[i + 4 + sp + dg] == ' ' && ClockAt(line, i + 5 + sp + dg)
  }

  /**
   * Where `[\w]{3}\ ?\ \d{1,2}\ \d{2}:\d{2}:\d{2}` matching at `line[i..]`
   * ends, as in `Sep  8 18:05:58`. It can match there in one way at most:
   * `\ ?` takes a space exactly when `line[i + 4]` is one (otherwise `\ `
   * would be left facing a space and `\d` a space), and `\d{1,2}` takes a
   * second digit exactly when there is one (otherwise `\ ` would face it).
   */
  function TimestampEnd(line: string, i: nat): (r: Option<nat>)
    ensures r.Some? ==> i + 14 <= r.value <= |line|
  {
    if i + 5 <= |line| && IsWordChar(line[i]) && IsWordChar(line[i + 1]) && IsWordChar(line[i + 2])
       && line[i + 3] == ' ' then
      var q := if line[i + 4] == ' ' then i + 5 else i + 4;
      if q + 1 < |line| && IsDigit(line[q]) then
        var e := if IsDigit(line[q + 1]) then q + 2 else q + 1;
        if ClockAt(line, e + 1) && line[e] == ' ' then Some(e + 9) else None
      else None
    else None
  }

  /** The first group at `line[i..j]`. */
  predicate IsTimestampAt(line: string, i: nat, j: nat) {
    TimestampEnd(line, i) == Some(j)
  }

  /**
   * The scan agrees with the regex read form by form: a timestamp is
   * `line[i..j]` in exactly one of the forms (`sp`, `dg`).
   */
  lemma TimestampForms(line: string, i: nat, j: nat)
    ensures IsTimestampAt(line, i, j) <==> exists sp, dg :: TimestampFormAt(line, i, sp, dg) && j == i + 13 + sp + dg
  {
    if IsTimestampAt(line, i, j) {
      var sp := if line[i + 4] == ' ' then 1 else 0;
      var dg := if IsDigit(line[i + 5 + sp]) then 2 else 1;
      assert TimestampFormAt(line, i, sp, dg);
    }
    if exists sp, dg :: TimestampFormAt(line, i, sp, dg) && j == i + 13 + sp + dg {
      var sp, dg :| TimestampFormAt(line, i, sp, dg) && j == i + 13 + sp + dg;
      assert line[i + 4] == ' ' <==> sp == 1;
      assert IsDigit(line[i + 5 + sp]) <==> dg == 2;
    }
  }

  /** `(Failed|Accepted|refused)` */
  predicate IsStateWord(w: string) { w == "Failed" || w == "Accepted" || w == "refused" }

  /** The word `w` at `line[i..i + |w|]`, char by char. */
  predicate WordAt(line: string, i: nat, w: string) {
    i + |w| <= |line| && forall k :: 0 <= k < |w| ==> line[i + k] == w[k]
  }

  predicate IsStateWordAt(line: string, i: nat, j: nat) {
    (j == i + 6 && WordAt(line, i, "Failed")) || (j == i + 8 && WordAt(line, i, "Accepted"))
    || (j == i + 7 && WordAt(line, i, "refused"))
  }

  /** `( [\w-]+)` at `line[i..j]`: the user group keeps its leading space. */
  predicate IsUserAt(line: string, i: nat, j: nat) {
    i + 2 <= j <= |line| && line[i] == ' ' && forall k :: i < k < j ==> IsUserChar(line[k])
  }

  /**
   * How many of `line[a]`, `line[a + 1]`, `line[a + 2]` (before `j`) are
   * digits in a row: what `[0-9]{1,3}` takes at `a`.
   */
  function OctetLength(line: string, a: nat, j: nat): (n: nat)
    requires j <= |line|
    ensures n <= 3 && (n > 0 ==> a + n <= j)
  {
    if a < j && IsDigit(line[a]) then
      if a + 1 < j && IsDigit(line[a + 1]) then
        if a + 2 < j && IsDigit(line[a + 2]) then 3 else 2
      else 1
    else 0
  }

  /** Past `[0-9]{1,3}\.` at `line[a..]`, before `j`. */
  function Dotted(line: string, a: nat, j: nat): (r: Option<nat>)
    requires j <= |line|
    ensures r.Some? ==> a + 2 <= r.value <= j
  {
    var n := OctetLength(line, a, j);
    if 0 < n && a + n < j && line[a + n] == '.' then Some(a + n + 1) else None
  }

  /**
   * Where `[0-9]{1,3}\.[0-9]{1,3}\.[0-9]{1,3}\.[0-9]{1,3}` at `line[a..]`
   * ends, before `j`. A run of digits ends at a dot, or at `j` after the
   * last one, so where each dot sits is fixed by the digits before it.
   */
  function QuadEnd(line: string, a: nat, j: nat): (r: Option<nat>)
    requires j <= |line|
    ensures r.Some? ==> a + 7 <= r.value <= j
  {
    match Dotted(line, a, j)
    case None => None
    case Some(b) =>
      match Dotted(line, b, j)
      case None => None
      case Some(c) =>
        match Dotted(line, c, j)
        case None => None
        case Some(d) =>
          var n := OctetLength(line, d, j);
          if 0 < n then Some(d + n) else None
  }

  /** `( [0-9]{1,3}\.[0-9]{1,3}\.[0-9]{1,3}\.[0-9]{1,3})` at `line[i..j]`: the IP group keeps its leading space. */
  predicate IsIpAt(line: string, i: nat, j: nat) {
    i < j <= |line| && line[i] == ' ' && QuadEnd(line, i + 1, j) == Some(j)
  }

  // The same shapes on whole strings

  predicate NoNewline(s: string) { NoNewlineIn(s, 0, |s|) }

  predicate IsTimestamp(t: string) { IsTimestampAt(t, 0, |t|) }

  predicate IsUser(u: string) { IsUserAt(u, 0, |u|) }

  predicate IsIp(a: string) { IsIpAt(a, 0, |a|) }

  /** Each group has the shape its part of the regex demands. */
  predicate WellFormed(c: Captures) {
    IsTimestamp(c.timestamp) && IsStateWord(c.state) && IsUser(c.user) && IsIp(c.ip)
  }

  // A shape on a stretch of the line is the shape of the stretch cut out.

  lemma NoNewlineSlice(line: string, i: nat, j: nat)
    requires i <= j <= |line|
    ensures NoNewlineIn(line, i, j) <==> NoNewline(line[i..j])
  {
    var s := line[i..j];
    assert forall k :: 0 <= k < |s| ==> s[k] == line[i + k];
    if NoNewline(s) {
      forall k | i <= k < j ensures line[k] != '\n' {
        assert s[k - i] == line[k];
      }
    }
  }

  lemma WordSlice(line: string, i: nat, w: string)
    requires i + |w| <= |line|
    ensures WordAt(line, i, w) <==> line[i..i + |w|] == w
  {
    var s := line[i..i + |w|];
    assert forall k :: 0 <= k < |s| ==> s[k] == line[i + k];
  }

  lemma StateWordSlice(line: string, i: nat, j: nat)
    requires i <= j <= |line|
    ensures IsStateWordAt(line, i, j) <==> IsStateWord(line[i..j])
  {
    if j == i + 6 { WordSlice(line, i, "Failed"); }
    if j == i + 8 { WordSlice(line, i, "Accepted"); }
    if j == i + 7 { WordSlice(line, i, "refused"); }
  }

  lemma TimestampSlice(line: string, i: nat, j: nat)
    requires i <= j <= |line|
    ensures IsTimestampAt(line, i, j) <==> IsTimestamp(line[i..j])
  {
    var t := line[i..j];
    assert forall k :: 0 <= k < |t| ==> t[k] == line[i + k];
  }

  lemma UserSlice(line: string, i: nat, j: nat)
    requires i <= j <= |line|
    ensures IsUserAt(line, i, j) <==> IsUser(line[i..j])
  {
    var u := line[i..j];
    assert forall k :: 0 <= k < |u| ==> u[k] == line[i + k];
    if IsUser(u) {
      forall k | i < k < j ensures IsUserChar(line[k]) {
        assert u[k - i] == line[k];
      }
    }
  }

  lemma OctetShift(line: string, i: nat, j: nat, a: nat)
    requires i <= a && i <= j <= |line|
    ensures OctetLength(line[i..j], a - i, j - i) == OctetLength(line, a, j)
  {
    var s := line[i..j];
    assert forall k :: 0 <= k < |s| ==> s[k] == line[i + k];
  }

  lemma DottedShift(line: string, i: nat, j: nat, a: nat)
    requires i <= a && i <= j <= |line|
    ensures Dotted(line[i..j], a - i, j - i).Some? <==> Dotted(line, a, j).Some?
    ensures Dotted(line, a, j).Some? ==> Dotted(line[i..j], a - i, j - i).value + i == Dotted(line, a, j).value
  {
    OctetShift(line, i, j, a);
    var n := OctetLength(line, a, j);
    if 0 < n && a + n < j {
      assert line[i..j][a + n - i] == line[a + n];
    }
  }

  /** The IP scan on `line[i..j]` sees what the scan on `line` sees, `i` places earlier. */
  lemma QuadShift(line: string, i: nat, j: nat, a: nat)
    requires i <= a && i <= j <= |line|
    ensures QuadEnd(line[i..j], a - i, j - i) == Some(j - i) <==> QuadEnd(line, a, j) == Some(j)
  {
    DottedShift(line, i, j, a);
    if Dotted(line, a, j).Some? {
      var b := Dotted(line, a, j).value;
      DottedShift(line, i, j, b);
      if Dotted(line, b, j).Some? {
        var c := Dotted(line, b, j).value;
        DottedShift(line, i, j, c);
        if Dotted(line, c, j).Some? {
          OctetShift(line, i, j, Dotted(line, c, j).value);
        }
      }
    }
  }

  lemma IpSlice(line: string, i: nat, j: nat)
    requires i <= j <= |line|
    ensures IsIpAt(line, i, j) <==> IsIp(line[i..j])
  {
    if i < j {
      QuadShift(line, i, j, i + 1);
      assert line[i..j][0] == line[i];
    }
  }

  // ---------------------------------------------------------------------
  // The declarative match

  /** The line the regex sees: the groups with the text around and between them. */
  function Assemble(c: Captures, f: Filler): string {
    f.pre + c.timestamp + " " + f.x + ": " + c.state + f.y + c.user + " from" + c.ip + f.rest
  }

  /** The regex matches `line` with groups `c`, the rest of the line being as in `f`. */
  predicate IsMatch(line: string, c: Captures, f: Filler) {
    line == Assemble(c, f) && WellFormed(c) && 1 <= |f.x| && NoNewline(f.x) && NoNewline(f.y)
  }

  // ---------------------------------------------------------------------
  // The same decomposition, as positions in the line

  /**
   * Where the timestamp starts and ends, where `.+` ends, where the state
   * word ends, where the user group starts and ends, and where the IP group
   * ends. Between `xEnd` and the state word sits ": ", between `userEnd`
   * and the IP group sits " from".
   */
  datatype Positions = Positions(start: nat, tsEnd: nat, xEnd: nat, stateEnd: nat,
                                 userStart: nat, userEnd: nat, ipEnd: nat)

  predicate Ordered(line: string, p: Positions) {
    p.start <= p.tsEnd && p.tsEnd + 1 <= p.xEnd && p.xEnd + 2 <= p.stateEnd <= p.userStart <= p.userEnd
    && p.userEnd + 5 <= p.ipEnd <= |line|
  }

  /** The literal text of the regex sits where the positions say. */
  predicate Joints(line: string, p: Positions)
    requires Ordered(line, p)
  {
    line[p.tsEnd] == ' ' && WordAt(line, p.xEnd, ": ") && WordAt(line, p.userEnd, " from")
  }

  function CapturesAt(line: string, p: Positions): Captures
    requires Ordered(line, p)
  {
    Captures(line[p.start..p.tsEnd], line[p.xEnd + 2..p.stateEnd], line[p.userStart..p.userEnd],
             line[p.userEnd + 5..p.ipEnd])
  }

  function FillerAt(line: string, p: Positions): Filler
    requires Ordered(line, p)
  {
    Filler(line[..p.start], line[p.tsEnd + 1..p.xEnd], line[p.stateEnd..p.userStart], line[p.ipEnd..])
  }

  /** A user group at `line[k..l]`, then " from", then an IP group ending at `n`. */
  predicate UserIpIn(line: string, k: nat, l: nat, n: nat) {
    IsUserAt(line, k, l) && WordAt(line, l, " from") && IsIpAt(line, l + 5, n)
  }

  /** What follows the state word, from `e` on: `.*` up to `k`, then the user and IP groups. */
  predicate TailIn(line: string, e: nat, k: nat, l: nat, n: nat) {
    NoNewlineIn(line, e, k) && UserIpIn(line, k, l, n)
  }

  /** What follows the timestamp's space, from `p` on: `.+` up to `j`, ": ", the state word up to `s`, the tail. */
  predicate BodyIn(line: string, p: nat, j: nat, s: nat, k: nat, l: nat, n: nat) {
    p < j && NoNewlineIn(line, p, j) && WordAt(line, j, ": ")
    && IsStateWordAt(line, j + 2, s) && TailIn(line, s, k, l, n)
  }

  /** The regex matches at these positions. */
  predicate Laid(line: string, p: Positions) {
    IsTimestampAt(line, p.start, p.tsEnd) && p.tsEnd < |line| && line[p.tsEnd] == ' '
    && BodyIn(line, p.tsEnd + 1, p.xEnd, p.stateEnd, p.userStart, p.userEnd, p.ipEnd)
  }

  function PositionsOf(c: Captures, f: Filler): Positions {
    var tsEnd := |f.pre| + |c.timestamp|;
    var xEnd := tsEnd + 1 + |f.x|;
    var stateEnd := xEnd + 2 + |c.state|;
    var userStart := stateEnd + |f.y|;
    var userEnd := userStart + |c.user|;
    Positions(|f.pre|, tsEnd, xEnd, stateEnd, userStart, userEnd, userEnd + 5 + |c.ip|)
  }

  lemma Peel(line: string, m: nat, a: string, b: string)
    requires m <= |line| && line[..m] == a + b
    ensures line[..|a|] == a && line[|a|..m] == b
  {
    assert line[..|a|] == line[..m][..|a|];
    assert line[|a|..m] == line[..m][|a|..];
  }

  lemma Extend(line: string, s: string, piece: string, b: nat, c: nat)
    requires b <= c <= |line| && s == line[..b] && piece == line[b..c]
    ensures s + piece == line[..c]
  {
    assert line[..b] + line[b..c] == line[..c];
  }

  /** Cutting an assembled line at the lengths of its pieces gives the pieces back. */
  lemma Disassemble(line: string, c: Captures, f: Filler)
    requires line == Assemble(c, f)
    ensures Ordered(line, PositionsOf(c, f))
    ensures var p := PositionsOf(c, f);
      line[p.start..p.tsEnd] == c.timestamp && line[p.tsEnd..p.tsEnd + 1] == " "
      && line[p.tsEnd + 1..p.xEnd] == f.x && line[p.xEnd..p.xEnd + 2] == ": "
      && line[p.xEnd + 2..p.stateEnd] == c.state && line[p.stateEnd..p.userStart] == f.y
      && line[p.userStart..p.userEnd] == c.user && line[p.userEnd..p.userEnd + 5] == " from"
      && line[p.userEnd + 5..p.ipEnd] == c.ip
  {
    var p2 := f.pre + c.timestamp;
    var p3 := p2 + " ";
    var p4 := p3 + f.x;
    var p5 := p4 + ": ";
    var p6 := p5 + c.state;
    var p7 := p6 + f.y;
    var p8 := p7 + c.user;
    var p9 := p8 + " from";
    var p10 := p9 + c.ip;
    assert line == p10 + f.rest;
    assert line[..|p10|] == p10;
    Peel(line, |p10|, p9, c.ip);
    Peel(line, |p9|, p8, " from");
    Peel(line, |p8|, p7, c.user);
    Peel(line, |p7|, p6, f.y);
    Peel(line, |p6|, p5, c.state);
    Peel(line, |p5|, p4, ": ");
    Peel(line, |p4|, p3, f.x);
    Peel(line, |p3|, p2, " ");
    Peel(line, |p2|, f.pre, c.timestamp);
  }

  /** The literal pieces of an assembled line, as the joints. */
  lemma LiteralJoints(line: string, p: Positions)
    requires Ordered(line, p)
    requires line[p.tsEnd..p.tsEnd + 1] == " " && line[p.xEnd..p.xEnd + 2] == ": "
    requires line[p.userEnd..p.userEnd + 5] == " from"
    ensures Joints(line, p)
  {
    assert line[p.tsEnd] == line[p.tsEnd..p.tsEnd + 1][0];
    WordSlice(line, p.xEnd, ": ");
    WordSlice(line, p.userEnd, " from");
  }

  /** Gluing the pieces at the positions back together gives the line. */
  lemma Reassemble(line: string, p: Positions)
    requires Ordered(line, p) && Joints(line, p)
    ensures line == Assemble(CapturesAt(line, p), FillerAt(line, p))
  {
    assert line[p.tsEnd..p.tsEnd + 1] == [line[p.tsEnd]];
    WordSlice(line, p.xEnd, ": ");
    WordSlice(line, p.userEnd, " from");
    var c, f := CapturesAt(line, p), FillerAt(line, p);
    var s := f.pre;
    Extend(line, s, c.timestamp, p.start, p.tsEnd);
    s := s + c.timestamp;
    Extend(line, s, " ", p.tsEnd, p.tsEnd + 1);
    s := s + " ";
    Extend(line, s, f.x, p.tsEnd + 1, p.xEnd);
    s := s + f.x;
    Extend(line, s, ": ", p.xEnd, p.xEnd + 2);
    s := s + ": ";
    Extend(line, s, c.state, p.xEnd + 2, p.stateEnd);
    s := s + c.state;
    Extend(line, s, f.y, p.stateEnd, p.userStart);
    s := s + f.y;
    Extend(line, s, c.user, p.userStart, p.userEnd);
    s := s + c.user;
    Extend(line, s, " from", p.userEnd, p.userEnd + 5);
    s := s + " from";
    Extend(line, s, c.ip, p.userEnd + 5, p.ipEnd);
    s := s + c.ip;
    Extend(line, s, f.rest, p.ipEnd, |line|);
    s := s + f.rest;
    assert s == Assemble(c, f);
    assert line[..|line|] == line;
  }

  // Each shape at the positions, against the group or filler cut out there

  lemma CutTimestamp(line: string, p: Positions)
    requires Ordered(line, p)
    ensures IsTimestampAt(line, p.start, p.tsEnd) <==> IsTimestamp(CapturesAt(line, p).timestamp)
  {
    TimestampSlice(line, p.start, p.tsEnd);
  }

  lemma CutState(line: string, p: Positions)
    requires Ordered(line, p)
    ensures IsStateWordAt(line, p.xEnd + 2, p.stateEnd) <==> IsStateWord(CapturesAt(line, p).state)
  {
    StateWordSlice(line, p.xEnd + 2, p.stateEnd);
  }

  lemma CutUser(line: string, p: Positions)
    requires Ordered(line, p)
    ensures IsUserAt(line, p.userStart, p.userEnd) <==> IsUser(CapturesAt(line, p).user)
  {
    UserSlice(line, p.userStart, p.userEnd);
  }

  lemma CutIp(line: string, p: Positions)
    requires Ordered(line, p)
    ensures IsIpAt(line, p.userEnd + 5, p.ipEnd) <==> IsIp(CapturesAt(line, p).ip)
  {
    IpSlice(line, p.userEnd + 5, p.ipEnd);
  }

  lemma CutX(line: string, p: Positions)
    requires Ordered(line, p)
    ensures NoNewlineIn(line, p.tsEnd + 1, p.xEnd) <==> NoNewline(FillerAt(line, p).x)
  {
    NoNewlineSlice(line, p.tsEnd + 1, p.xEnd);
  }

  lemma CutY(line: string, p: Positions)
    requires Ordered(line, p)
    ensures NoNewlineIn(line, p.stateEnd, p.userStart) <==> NoNewline(FillerAt(line, p).y)
  {
    NoNewlineSlice(line, p.stateEnd, p.userStart);
  }

  lemma Cuts(line: string, p: Positions)
    requires Ordered(line, p)
    ensures IsTimestampAt(line, p.start, p.tsEnd) <==> IsTimestamp(CapturesAt(line, p).timestamp)
    ensures IsStateWordAt(line, p.xEnd + 2, p.stateEnd) <==> IsStateWord(CapturesAt(line, p).state)
    ensures IsUserAt(line, p.userStart, p.userEnd) <==> IsUser(CapturesAt(line, p).user)
    ensures IsIpAt(line, p.userEnd + 5, p.ipEnd) <==> IsIp(CapturesAt(line, p).ip)
    ensures NoNewlineIn(line, p.tsEnd + 1, p.xEnd) <==> NoNewline(FillerAt(line, p).x)
    ensures NoNewlineIn(line, p.stateEnd, p.userStart) <==> NoNewline(FillerAt(line, p).y)
  {
    CutTimestamp(line, p);
    CutState(line, p);
    CutUser(line, p);
    CutIp(line, p);
    CutX(line, p);
    CutY(line, p);
  }

  /** Groups and filler of the right shapes, cut out at ordered positions with the joints in place, are a match there. */
  lemma ShapesLaid(line: string, p: Positions)
    requires Ordered(line, p) && Joints(line, p) && p.tsEnd + 1 < p.xEnd
    requires WellFormed(CapturesAt(line, p)) && NoNewline(FillerAt(line, p).x) && NoNewline(FillerAt(line, p).y)
    ensures Laid(line, p)
  {
    Cuts(line, p);
  }

  /** A decomposition gives positions where the regex matches, with the same groups. */
  lemma IsMatchLaid(line: string, c: Captures, f: Filler)
    requires IsMatch(line, c, f)
    ensures Laid(line, PositionsOf(c, f)) && CapturesAt(line, PositionsOf(c, f)) == c
  {
    Disassemble(line, c, f);
    var p := PositionsOf(c, f);
    LiteralJoints(line, p);
    ShapesLaid(line, p);
  }

  /** Positions where the regex matches are in order, with the literal text at the joints. */
  lemma LaidJoints(line: string, p: Positions)
    ensures Laid(line, p) ==> Ordered(line, p) && Joints(line, p)
  {
  }

  /** The groups cut out at positions where the regex matches have their shapes. */
  lemma LaidGroups(line: string, p: Positions)
    ensures Laid(line, p) ==> Ordered(line, p) && WellFormed(CapturesAt(line, p))
  {
    LaidJoints(line, p);
    LaidTimestamp(line, p);
    LaidState(line, p);
    LaidUser(line, p);
    LaidIp(line, p);
  }

  lemma LaidTimestamp(line: string, p: Positions)
    ensures Ordered(line, p) && IsTimestampAt(line, p.start, p.tsEnd) ==> IsTimestamp(CapturesAt(line, p).timestamp)
  {
    if Ordered(line, p) { CutTimestamp(line, p); }
  }

  lemma LaidState(line: string, p: Positions)
    ensures Ordered(line, p) && IsStateWordAt(line, p.xEnd + 2, p.stateEnd) ==> IsStateWord(CapturesAt(line, p).state)
  {
    if Ordered(line, p) { CutState(line, p); }
  }

  lemma LaidUser(line: string, p: Positions)
    ensures Ordered(line, p) && IsUserAt(line, p.userStart, p.userEnd) ==> IsUser(CapturesAt(line, p).user)
  {
    if Ordered(line, p) { CutUser(line, p); }
  }

  lemma LaidIp(line: string, p: Positions)
    ensures Ordered(line, p) && IsIpAt(line, p.userEnd + 5, p.ipEnd) ==> IsIp(CapturesAt(line, p).ip)
  {
    if Ordered(line, p) { CutIp(line, p); }
  }

  /** So does the text matched by `.+` and `.*` there. */
  lemma LaidFiller(line: string, p: Positions)
    ensures Laid(line, p) ==> Ordered(line, p) && 1 <= |FillerAt(line, p).x|
                              && NoNewline(FillerAt(line, p).x) && NoNewline(FillerAt(line, p).y)
  {
    LaidJoints(line, p);
    if Laid(line, p) {
      CutX(line, p);
      CutY(line, p);
    }
  }

  /** Positions where the regex matches give a decomposition. */
  lemma LaidIsMatch(line: string, p: Positions)
    requires Laid(line, p)
    ensures IsMatch(line, CapturesAt(line, p), FillerAt(line, p))
  {
    LaidJoints(line, p);
    Reassemble(line, p);
    LaidGroups(line, p);
    LaidFiller(line, p);
  }

  // ---------------------------------------------------------------------
  // What is left of the regex after each of its parts, as a bounded
  // existential, and the search that picks a witness for it. A greedy part
  // tries the longest candidate first.

  /** An IP group starts at `q`. */
  predicate IpAt(line: string, q: nat)
    requires q <= |line|
  {
    exists n :: q <= n <= |line| && IsIpAt(line, q, n)
  }

  /** The end of the IP group at `q`: the last octet is greedy, so the longest. */
  function IpEnd(line: string, q: nat): (r: Option<nat>)
    requires q <= |line|
    ensures r.Some? ==> q <= r.value <= |line| && IsIpAt(line, q, r.value)
    ensures r.Some? ==> forall n :: r.value < n <= |line| ==> !IsIpAt(line, q, n)
    ensures r.Some? <==> IpAt(line, q)
  {
    var ok := (n: nat) => q <= n <= |line| && IsIpAt(line, q, n);
    assert forall n :: q <= n <= |line| ==> (ok(n) <==> IsIpAt(line, q, n));
    Search.Last(ok, q, |line|)
  }

  /** The user group is `line[k..l]`, followed by " from" and an IP group. */
  predicate UserThenIp(line: string, k: nat, l: nat) {
    IsUserAt(line, k, l) && WordAt(line, l, " from") && IpAt(line, l + 5)
  }

  /** A user group, " from" and an IP group start at `k`. */
  predicate UserAt(line: string, k: nat)
    requires k <= |line|
  {
    exists l :: k <= l <= |line| && UserThenIp(line, k, l)
  }

  /** The end of the user group starting at `k`; `[\w-]+` is greedy, so the latest first. */
  function UserEnd(line: string, k: nat): (r: Option<nat>)
    requires k <= |line|
    ensures r.Some? ==> k <= r.value <= |line| && UserThenIp(line, k, r.value)
    ensures r.Some? ==> forall n :: r.value < n <= |line| ==> !UserThenIp(line, k, n)
    ensures r.Some? <==> UserAt(line, k)
  {
    var ok := (n: nat) => k <= n <= |line| && UserThenIp(line, k, n);
    assert forall n :: k <= n <= |line| ==> (ok(n) <==> UserThenIp(line, k, n));
    Search.Last(ok, k, |line|)
  }

  /** `.*` takes `line[e..k]` and a user group starts at `k`. */
  predicate FillerThenUser(line: string, e: nat, k: nat) {
    NoNewlineIn(line, e, k) && UserAt(line, k)
  }

  /** What follows the state word can match, from `e` on. */
  predicate TailAt(line: string, e: nat)
    requires e <= |line|
  {
    exists k :: e <= k <= |line| && FillerThenUser(line, e, k)
  }

  /** Where the user group starts: `.*` is greedy, so the latest first. */
  function UserStart(line: string, e: nat): (r: Option<nat>)
    requires e <= |line|
    ensures r.Some? ==> e <= r.value <= |line| && FillerThenUser(line, e, r.value)
    ensures r.Some? ==> forall n :: r.value < n <= |line| ==> !FillerThenUser(line, e, n)
    ensures r.Some? <==> TailAt(line, e)
  {
    var ok := (n: nat) => e <= n <= |line| && FillerThenUser(line, e, n);
    assert forall n :: e <= n <= |line| ==> (ok(n) <==> FillerThenUser(line, e, n));
    Search.Last(ok, e, |line|)
  }

  /** The end of the state word at `s`; at most one of the three words fits. */
  function StateEnd(line: string, s: nat): (r: Option<nat>)
    ensures r.Some? ==> IsStateWordAt(line, s, r.value)
  {
    if WordAt(line, s, "Failed") then Some(s + 6)
    else if WordAt(line, s, "Accepted") then Some(s + 8)
    else if WordAt(line, s, "refused") then Some(s + 7)
    else None
  }

  /** The state word found at `s` is the one there. */
  lemma StateEndIs(line: string, s: nat, n: nat)
    ensures IsStateWordAt(line, s, n) ==> StateEnd(line, s) == Some(n)
  {
    StateWordsDiffer(line, s);
  }

  /** The three words start with different letters. */
  lemma StateWordsDiffer(line: string, s: nat)
    ensures WordAt(line, s, "Failed") ==> s < |line| && line[s] == 'F'
    ensures WordAt(line, s, "Accepted") ==> s < |line| && line[s] == 'A'
    ensures WordAt(line, s, "refused") ==> s < |line| && line[s] == 'r'
  {
    if WordAt(line, s, "Failed") { assert line[s + 0] == "Failed"[0]; }
    if WordAt(line, s, "Accepted") { assert line[s + 0] == "Accepted"[0]; }
    if WordAt(line, s, "refused") { assert line[s + 0] == "refused"[0]; }
  }

  /** ": ", a state word, and then the rest of the regex, at `j`. */
  predicate StateThenRest(line: string, j: nat) {
    WordAt(line, j, ": ") && StateEnd(line, j + 2).Some?
    && TailAt(line, StateEnd(line, j + 2).value)
  }

  /** `.+` takes `line[p..j]` and ": " and a state word follow. */
  predicate AnyThenState(line: string, p: nat, j: nat) {
    p < j && NoNewlineIn(line, p, j) && StateThenRest(line, j)
  }

  /** What follows the timestamp and its space can match, from `p` on. */
  predicate BodyAt(line: string, p: nat)
    requires p <= |line|
  {
    exists j :: p <= j <= |line| && AnyThenState(line, p, j)
  }

  /** Where `.+` ends: greedy, so the latest first. */
  function AnyEnd(line: string, p: nat): (r: Option<nat>)
    requires p <= |line|
    ensures r.Some? ==> p <= r.value <= |line| && AnyThenState(line, p, r.value)
    ensures r.Some? ==> forall n :: r.value < n <= |line| ==> !AnyThenState(line, p, n)
    ensures r.Some? <==> BodyAt(line, p)
  {
    var ok := (n: nat) => p <= n <= |line| && AnyThenState(line, p, n);
    assert forall n :: p <= n <= |line| ==> (ok(n) <==> AnyThenState(line, p, n));
    Search.Last(ok, p, |line|)
  }

  /** The whole regex matches starting at `i`. */
  predicate MatchesAt(line: string, i: nat) {
    match TimestampEnd(line, i)
    case None => false
    case Some(t) => t < |line| && line[t] == ' ' && BodyAt(line, t + 1)
  }

  /** The leftmost start where the whole regex matches. */
  function MatchStart(line: string): (r: Option<nat>)
    ensures r.Some? ==> r.value <= |line| && MatchesAt(line, r.value)
    ensures r.Some? ==> forall i: nat :: i < r.value ==> !MatchesAt(line, i)
    ensures r.None? ==> forall i: nat :: i <= |line| ==> !MatchesAt(line, i)
  {
    var ok := (i: nat) => i <= |line| && MatchesAt(line, i);
    assert forall i: nat :: i <= |line| ==> (ok(i) <==> MatchesAt(line, i));
    Search.First(ok, 0, |line|)
  }

  /** The positions the search picks for the user and IP groups at `k`. */
  function UserPositions(line: string, k: nat): (r: (nat, nat))
    requires k <= |line| && UserAt(line, k)
    ensures UserIpIn(line, k, r.0, r.1)
  {
    var l := UserEnd(line, k).value;
    (l, IpEnd(line, l + 5).value)
  }

  /** The positions the search picks for the tail starting at `e`. */
  function TailPositions(line: string, e: nat): (r: (nat, nat, nat))
    requires e <= |line| && TailAt(line, e)
    ensures TailIn(line, e, r.0, r.1, r.2)
  {
    var k := UserStart(line, e).value;
    var u := UserPositions(line, k);
    (k, u.0, u.1)
  }

  /** `.+` up to `j`, ": " and the state word up to `s`, then a tail laid out after it. */
  lemma Body(line: string, p: nat, j: nat, s: nat, k: nat, l: nat, n: nat)
    ensures AnyThenState(line, p, j) && StateEnd(line, j + 2) == Some(s) && TailIn(line, s, k, l, n)
            ==> BodyIn(line, p, j, s, k, l, n)
  {
  }

  lemma StateThenTail(line: string, p: nat, j: nat)
    ensures AnyThenState(line, p, j) ==> StateEnd(line, j + 2).Some? && StateEnd(line, j + 2).value <= |line|
                                         && TailAt(line, StateEnd(line, j + 2).value)
  {
  }

  /** The positions the search picks for the body starting at `p`. */
  function BodyPositions(line: string, p: nat): (r: (nat, nat, (nat, nat, nat)))
    requires p <= |line| && BodyAt(line, p)
    ensures BodyIn(line, p, r.0, r.1, r.2.0, r.2.1, r.2.2)
  {
    var j := AnyEnd(line, p).value;
    StateThenTail(line, p, j);
    var s := StateEnd(line, j + 2).value;
    var t := TailPositions(line, s);
    Body(line, p, j, s, t.0, t.1, t.2);
    (j, s, t)
  }

  /** A timestamp at `line[i..t]`, its space, and a body laid out after it are a match. */
  lemma Lay(line: string, i: nat, t: nat, j: nat, s: nat, k: nat, l: nat, n: nat)
    requires TimestampEnd(line, i) == Some(t) && t < |line| && line[t] == ' '
    requires BodyIn(line, t + 1, j, s, k, l, n)
    ensures Laid(line, Positions(i, t, j, s, k, l, n))
  {
  }

  /** The positions the search settles on, once it has found the start `i`. */
  function Located(line: string, i: nat): (p: Positions)
    requires MatchesAt(line, i)
    ensures Laid(line, p) && p.start == i
  {
    var t := TimestampEnd(line, i).value;
    var b := BodyPositions(line, t + 1);
    Lay(line, i, t, b.0, b.1, b.2.0, b.2.1, b.2.2);
    Positions(i, t, b.0, b.1, b.2.0, b.2.1, b.2.2)
  }

  lemma TimestampFound(line: string, i: nat, t: nat)
    requires TimestampEnd(line, i) == Some(t) && t < |line| && line[t] == ' ' && BodyAt(line, t + 1)
    ensures MatchesAt(line, i)
  {
  }

  // Where the regex matches, each level of the search sees its part.

  lemma UserFound(line: string, p: Positions)
    ensures Laid(line, p) ==> p.userStart <= |line| && UserAt(line, p.userStart)
  {
    if Laid(line, p) {
      assert IpAt(line, p.userEnd + 5);
      assert UserThenIp(line, p.userStart, p.userEnd);
    }
  }

  lemma TailFound(line: string, p: Positions)
    ensures Laid(line, p) ==> p.stateEnd <= |line| && TailAt(line, p.stateEnd)
  {
    UserFound(line, p);
    if Laid(line, p) {
      assert FillerThenUser(line, p.stateEnd, p.userStart);
    }
  }

  lemma BodyFound(line: string, p: Positions)
    ensures Laid(line, p) ==> p.tsEnd + 1 <= |line| && BodyAt(line, p.tsEnd + 1)
  {
    TailFound(line, p);
    StateEndIs(line, p.xEnd + 2, p.stateEnd);
    if Laid(line, p) {
      assert AnyThenState(line, p.tsEnd + 1, p.xEnd);
    }
  }

  /** Wherever the regex can match, the search sees a match starting there. */
  lemma LaidIsFound(line: string, p: Positions)
    ensures Laid(line, p) ==> MatchesAt(line, p.start)
  {
    BodyFound(line, p);
    if Laid(line, p) {
      TimestampFound(line, p.start, p.tsEnd);
    }
  }

  /** Finds positions where the regex matches, if the line has any. */
  function Locate(line: string): (r: Option<Positions>)
    ensures r.Some? ==> Laid(line, r.value)
    ensures r.None? ==> forall p :: !Laid(line, p)
  {
    match MatchStart(line)
    case None =>
      NothingLaid(line);
      None
    case Some(i) => Some(Located(line, i))
  }

  lemma NothingLaid(line: string)
    requires MatchStart(line).None?
    ensures forall p :: !Laid(line, p)
  {
    forall p | Laid(line, p) ensures false {
      LaidIsFound(line, p);
      LaidJoints(line, p);
    }
  }

  /**
   * `line.match(REGEX)` followed by `match.captures` (authlog-parser.rb:129,
   * 133-137): the groups of a decomposition of the line when it has one,
   * and `None` exactly when it has none.
   */
  function Match(line: string): (r: Option<Captures>)
    ensures r.Some? ==> WellFormed(r.value) && exists f :: IsMatch(line, r.value, f)
    ensures r.None? ==> forall c, f :: !IsMatch(line, c, f)
  {
    match Locate(line)
    case None =>
      NoDecomposition(line);
      None
    case Some(p) =>
      LaidIsMatch(line, p);
      Some(CapturesAt(line, p))
  }

  lemma NoDecomposition(line: string)
    requires Locate(line).None?
    ensures forall c, f :: !IsMatch(line, c, f)
  {
    forall c, f | IsMatch(line, c, f) ensures false {
      IsMatchLaid(line, c, f);
    }
  }
}
