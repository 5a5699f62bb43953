/**
 * The main loop (authlog-parser.rb:130-157): every line of the input is
 * matched against the regex, and the entries of the matched lines that the
 * mode keeps are pushed onto `newlog` in input order.
 *
 * The loop is specified in two steps: the result of `line.match(REGEX)` for
 * each line (`Results`), and what the loop pushes for a sequence of such
 * results (`Select`).
 */
module Scan {
  import opened Wrappers
  import opened CommandLine
  import opened LogPattern
  import opened Entries

  /** The groups of each line in turn, or `None` for a line that does not match. */
  function Results(lines: seq<string>): (r: seq<Option<Captures>>)
    ensures |r| == |lines|
    ensures forall k :: 0 <= k < |r| && r[k].Some? ==> WellFormed(r[k].value)
  {
    if lines == [] then [] else Results(lines[..|lines| - 1]) + [Match(lines[|lines| - 1])]
  }

  /** The result for line `k` is what the regex gives on that line. */
  lemma {:induction false} ResultsAt(lines: seq<string>, k: nat)
    requires k < |lines|
    ensures Results(lines)[k] == Match(lines[k])
  {
    var init := lines[..|lines| - 1];
    if k < |lines| - 1 {
      ResultsAt(init, k);
      assert init[k] == lines[k];
    }
  }

  /** The results of one more line. */
  lemma ResultsSnoc(lines: seq<string>, i: nat)
    requires i < |lines|
    ensures Results(lines[..i + 1]) == Results(lines[..i]) + [Match(lines[i])]
  {
    assert lines[..i + 1][..i] == lines[..i];
  }

  /** What one result pushes onto `newlog`: nothing, or its entry. */
  function Contribution(mode: Mode, result: Option<Captures>): (r: seq<string>)
    ensures |r| <= 1
    ensures result.None? ==> r == []
    ensures result.Some? ==> (|r| == 1 <==> Keeps(mode, result.value.state))
  {
    match result
    case None => []
    case Some(g) =>
      match Entry(mode, g)
      case None => []
      case Some(e) => [e]
  }

  /** `newlog` after the loop has seen lines with results `rs`. */
  function Select(mode: Mode, rs: seq<Option<Captures>>): (r: seq<string>)
    ensures |r| <= |rs|
  {
    if rs == [] then []
    else Select(mode, rs[..|rs| - 1]) + Contribution(mode, rs[|rs| - 1])
  }

  /** `newlog` after the loop has seen `lines`. */
  function Collect(mode: Mode, lines: seq<string>): (r: seq<string>)
    ensures |r| <= |lines|
  {
    Select(mode, Results(lines))
  }

  lemma SelectSnoc(mode: Mode, rs: seq<Option<Captures>>, x: Option<Captures>)
    ensures Select(mode, rs + [x]) == Select(mode, rs) + Contribution(mode, x)
  {
    assert (rs + [x])[..|rs|] == rs;
  }

  /** One more line seen: `newlog` grows by that line's contribution. */
  lemma Step(mode: Mode, lines: seq<string>, i: nat, before: seq<string>, after: seq<string>)
    requires i < |lines| && before == Select(mode, Results(lines[..i]))
    requires after == before + Contribution(mode, Match(lines[i]))
    ensures after == Select(mode, Results(lines[..i + 1]))
  {
    ResultsSnoc(lines, i);
    SelectSnoc(mode, Results(lines[..i]), Match(lines[i]));
  }

  /**
   * The loop body for one line: `line.match(REGEX)`, nothing when there is
   * no match (`next`), otherwise the entry the mode asks for, if any
   * (authlog-parser.rb:133-153).
   */
  method HandleLine(mode: Mode, line: string) returns (pushed: seq<string>)
    ensures pushed == Contribution(mode, Match(line))
  {
    pushed := [];
    var found := Match(line);
    if found.None? {
      return;
    }
    var groups := found.value;
    var entry := Entry(mode, groups);
    if entry.Some? {
      pushed := [entry.value];
    }
  }

  /** The loop over the input, pushing onto `newlog` (authlog-parser.rb:130-157). */
  method ParseLog(mode: Mode, lines: seq<string>) returns (newlog: seq<string>)
    ensures newlog == Collect(mode, lines)
  {
    newlog := [];
    var i := 0;
    while i < |lines|
      invariant 0 <= i <= |lines|
      invariant newlog == Select(mode, Results(lines[..i]))
    {
      var pushed := HandleLine(mode, lines[i]);
      Step(mode, lines, i, newlog, newlog + pushed);
      newlog := newlog + pushed;
      i := i + 1;
    }
    assert lines[..i] == lines;
  }

  // An independent description: the captured groups, filtered, then laid out

  /** The groups of the results that have some, in order. */
  function Captured(rs: seq<Option<Captures>>): (r: seq<Captures>)
    ensures |r| <= |rs|
  {
    if rs == [] then []
    else
      var rest := Captured(rs[..|rs| - 1]);
      match rs[|rs| - 1]
      case None => rest
      case Some(g) => rest + [g]
  }

  /** The groups a mode keeps, in order. */
  function Kept(mode: Mode, gs: seq<Captures>): (r: seq<Captures>)
    ensures |r| <= |gs|
    ensures forall k :: 0 <= k < |r| ==> Keeps(mode, r[k].state)
  {
    if gs == [] then []
    else
      var rest := Kept(mode, gs[..|gs| - 1]);
      if Keeps(mode, gs[|gs| - 1].state) then rest + [gs[|gs| - 1]] else rest
  }

  /** The field layout of each of `gs`. */
  function Displayed(gs: seq<Captures>): (r: seq<string>)
    ensures |r| == |gs|
  {
    if gs == [] then [] else Displayed(gs[..|gs| - 1]) + [Display(gs[|gs| - 1])]
  }

  /**
   * `newlog` is exactly the layout of the matched groups that the mode
   * keeps, in input order: results without a match add nothing, and
   * nothing else is added.
   */
  lemma {:induction false} SelectIsKeptCaptures(mode: Mode, rs: seq<Option<Captures>>)
    ensures Select(mode, rs) == Displayed(Kept(mode, Captured(rs)))
  {
    if rs != [] {
      var init := rs[..|rs| - 1];
      SelectIsKeptCaptures(mode, init);
      ContributionIsDisplay(mode, rs[|rs| - 1]);
      match rs[|rs| - 1] {
        case None =>
        case Some(g) =>
          var gs := Captured(init) + [g];
          assert gs[..|gs| - 1] == Captured(init);
          if Keeps(mode, g.state) {
            var ks := Kept(mode, Captured(init)) + [g];
            assert ks[..|ks| - 1] == Kept(mode, Captured(init));
          }
      }
    }
  }

  /** What a result contributes, as the field layout of its groups. */
  lemma ContributionIsDisplay(mode: Mode, result: Option<Captures>)
    ensures Contribution(mode, result)
      == if result.Some? && Keeps(mode, result.value.state) then [Display(result.value)] else []
  {
    if result.Some? {
      EntryIsDisplay(mode, result.value);
    }
  }

  lemma CollectIsKeptCaptures(mode: Mode, lines: seq<string>)
    ensures Collect(mode, lines) == Displayed(Kept(mode, Captured(Results(lines))))
  {
    SelectIsKeptCaptures(mode, Results(lines));
  }

  /** The loop over two stretches of results is the loop over each in turn. */
  lemma {:induction false} SelectAppend(mode: Mode, a: seq<Option<Captures>>, b: seq<Option<Captures>>)
    ensures Select(mode, a + b) == Select(mode, a) + Select(mode, b)
    decreases |b|
  {
    if b == [] {
      assert a + b == a;
    } else {
      var b' := b[..|b| - 1];
      SelectAppend(mode, a, b');
      assert (a + b)[..|a + b| - 1] == a + b';
      assert (a + b)[|a + b| - 1] == b[|b| - 1];
    }
  }

  /** The results of two stretches of input are the results of each in turn. */
  lemma {:induction false} ResultsAppend(a: seq<string>, b: seq<string>)
    ensures Results(a + b) == Results(a) + Results(b)
    decreases |b|
  {
    if b == [] {
      assert a + b == a;
    } else {
      var b' := b[..|b| - 1];
      ResultsAppend(a, b');
      assert (a + b)[..|a + b| - 1] == a + b';
      assert (a + b)[|a + b| - 1] == b[|b| - 1];
    }
  }

  /** The loop over two stretches of input is the loop over each in turn. */
  lemma CollectAppend(mode: Mode, a: seq<string>, b: seq<string>)
    ensures Collect(mode, a + b) == Collect(mode, a) + Collect(mode, b)
  {
    ResultsAppend(a, b);
    SelectAppend(mode, Results(a), Results(b));
  }

  /** A line the regex does not match adds nothing. */
  lemma UnmatchedAddsNothing(mode: Mode, lines: seq<string>, line: string)
    requires Match(line).None?
    ensures Collect(mode, lines + [line]) == Collect(mode, lines)
  {
    CollectAppend(mode, lines, [line]);
    assert Results([line]) == [Match(line)] by {
      assert [line][..0] == [];
    }
  }

  /** Results without any match give an empty `newlog`. */
  lemma {:induction false} NoMatchNoEntries(mode: Mode, rs: seq<Option<Captures>>)
    ensures (forall k :: 0 <= k < |rs| ==> rs[k].None?) ==> Select(mode, rs) == []
  {
    if rs != [] {
      var init := rs[..|rs| - 1];
      NoMatchNoEntries(mode, init);
      assert forall k :: 0 <= k < |init| ==> init[k] == rs[k];
    }
  }

  /** Every entry is the entry of one of the results that has groups. */
  lemma {:induction false} EntriesFromMatches(mode: Mode, rs: seq<Option<Captures>>)
    ensures forall e :: e in Select(mode, rs) ==> exists k ::
      0 <= k < |rs| && rs[k].Some? && Entry(mode, rs[k].value) == Some(e)
  {
    if rs != [] {
      var init := rs[..|rs| - 1];
      EntriesFromMatches(mode, init);
      forall e | e in Select(mode, rs) ensures exists k ::
        0 <= k < |rs| && rs[k].Some? && Entry(mode, rs[k].value) == Some(e)
      {
        if e in Select(mode, init) {
          var k :| 0 <= k < |init| && init[k].Some? && Entry(mode, init[k].value) == Some(e);
          assert init[k] == rs[k];
        } else {
          var k := |rs| - 1;
          assert rs[k].Some? && Entry(mode, rs[k].value) == Some(e);
        }
      }
    }
  }

  /** Hence every entry is the entry of an input line the regex matches. */
  lemma EntryOfMatchedLine(mode: Mode, lines: seq<string>, e: string)
    requires e in Collect(mode, lines)
    ensures exists k :: 0 <= k < |lines| && Match(lines[k]).Some? && Entry(mode, Match(lines[k]).value) == Some(e)
  {
    var rs := Results(lines);
    EntriesFromMatches(mode, rs);
    var k :| 0 <= k < |rs| && rs[k].Some? && Entry(mode, rs[k].value) == Some(e);
    ResultsAt(lines, k);
  }

  /** In mode ALL every result with groups gives exactly one entry. */
  lemma {:induction false} AllKeepsEveryMatch(rs: seq<Option<Captures>>)
    ensures |Select(All, rs)| == |Captured(rs)|
  {
    if rs != [] {
      AllKeepsEveryMatch(rs[..|rs| - 1]);
    }
  }

  /**
   * Mode ALL shows as many entries as ACCEPTED and FAILED together when
   * every state word is one the regex admits: each lands on exactly one side.
   */
  lemma {:induction false} ModesPartition(rs: seq<Option<Captures>>)
    requires forall k :: 0 <= k < |rs| && rs[k].Some? ==> IsStateWord(rs[k].value.state)
    ensures |Select(All, rs)| == |Select(Accepted, rs)| + |Select(Failed, rs)|
  {
    if rs != [] {
      var init := rs[..|rs| - 1];
      assert forall k :: 0 <= k < |init| ==> init[k] == rs[k];
      ModesPartition(init);
    }
  }

  /** So on any input, ALL shows what ACCEPTED and FAILED show between them. */
  lemma CollectPartition(lines: seq<string>)
    ensures |Collect(All, lines)| == |Collect(Accepted, lines)| + |Collect(Failed, lines)|
  {
    ModesPartition(Results(lines));
  }

  /** Entries built from well-formed groups are single lines. */
  lemma {:induction false} SelectOneLine(mode: Mode, rs: seq<Option<Captures>>)
    requires forall k :: 0 <= k < |rs| && rs[k].Some? ==> WellFormed(rs[k].value)
    ensures forall k :: 0 <= k < |Select(mode, rs)| ==> '\n' !in Select(mode, rs)[k]
  {
    if rs != [] {
      var init := rs[..|rs| - 1];
      assert forall k :: 0 <= k < |init| ==> init[k] == rs[k];
      SelectOneLine(mode, init);
      var last := rs[|rs| - 1];
      if last.Some? {
        EntryOneLine(mode, last.value);
      }
    }
  }

  /** So no entry of `newlog` holds a newline. */
  lemma CollectOneLine(mode: Mode, lines: seq<string>)
    ensures forall k :: 0 <= k < |Collect(mode, lines)| ==> '\n' !in Collect(mode, lines)[k]
  {
    SelectOneLine(mode, Results(lines));
  }
}
