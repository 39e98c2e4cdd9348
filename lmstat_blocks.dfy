/**
 * What the `parse_log` state machine guarantees about the blocks it returns:
 * one block per header line, in header order and never merged; noise lines
 * and stray lines before the first header change nothing; the detail lines
 * after a header, and only those, become that block's users.
 */
module LmstatBlocks {
  import opened Wrappers
  import opened PyText
  import opened Seqs
  import opened Lmstat
  import opened LmstatRuns

  // ---------------------------------------------------------------------------
  // Blocks and headers

  /** One step on a line: a header line adds one block with the fields read
      from it, any other line changes only the users of the open block. */
  lemma StepKeepsHeaders(st: ParserState, raw: string)
    requires Step(st, raw).Ok?
    ensures WithoutUsers(Finish(Step(st, raw).value)) == WithoutUsers(Finish(st)) + HeaderBlockOf(raw)
    ensures |Finish(Step(st, raw).value)| == |Finish(st)| + (if IsHeaderLine(raw) then 1 else 0)
  {
    if IsHeaderLine(raw) {
      StepFailsOnlyOnBadHeader(st, raw);
      HeaderStep(st, raw);
      var b := ParseHeader(Strip(raw)).value;
      WithoutUsersAppend(Finish(st), [b]);
      assert WithoutUsers([b]) == [b];
    } else if st.open.Some? {
      StepInOpenBlock(st, raw);
      var o := st.open.value;
      UsersInvisible(st.done, o, o.users + UserOf(raw));
      assert HeaderBlockOf(raw) == [];
      assert WithoutUsers(Finish(st)) + [] == WithoutUsers(Finish(st));
    } else {
      StepWithoutOpenBlock(st, raw);
      assert WithoutUsers(Finish(st)) + [] == WithoutUsers(Finish(st));
    }
  }

  /** Each header line adds one block, whose header fields come from that line;
      other lines change only the users of the open block. */
  lemma {:induction false} BlocksFollowHeaders(st: ParserState, lines: seq<string>)
    requires RunFrom(st, lines).Ok?
    ensures WithoutUsers(Finish(RunFrom(st, lines).value)) == WithoutUsers(Finish(st)) + HeaderBlocks(lines)
    ensures |Finish(RunFrom(st, lines).value)| == |Finish(st)| + CountHeaders(lines)
    decreases |lines|
  {
    if lines == [] {
      assert WithoutUsers(Finish(st)) + [] == WithoutUsers(Finish(st));
    } else {
      var next := Step(st, lines[0]).value;
      StepKeepsHeaders(st, lines[0]);
      BlocksFollowHeaders(next, lines[1..]);
      AppendAssoc(WithoutUsers(Finish(st)), HeaderBlockOf(lines[0]), HeaderBlocks(lines[1..]));
    }
  }

  /** On success, `parse_log` returns exactly one block per header line, in
      header order, with the name and counts read from that line; blocks with
      the same name are kept apart. */
  lemma ReportBlocksFollowHeaders(logData: string)
    requires ParsedReport(logData).Ok?
    ensures WithoutUsers(ParsedReport(logData).value) == HeaderBlocks(ReportLines(logData))
    ensures |ParsedReport(logData).value| == CountHeaders(ReportLines(logData))
  {
    BlocksFollowHeaders(INITIAL, ReportLines(logData));
    assert Finish(INITIAL) == [];
  }

  // ---------------------------------------------------------------------------
  // Lines that change nothing

  /** Inserting a noise line anywhere leaves the outcome unchanged. */
  lemma NoiseLineIrrelevant(st: ParserState, a: seq<string>, line: string, b: seq<string>)
    requires IsNoise(line)
    ensures RunFrom(st, a + [line] + b) == RunFrom(st, a + b)
  {
    assert a + [line] + b == a + ([line] + b);
    RunFromAppend(st, a, [line] + b);
    RunFromAppend(st, a, b);
    if RunFrom(st, a).Ok? {
      var mid := RunFrom(st, a).value;
      NoiseStep(mid, line);
      assert ([line] + b)[0] == line && ([line] + b)[1..] == b;
    }
  }

  /** With no block open, lines that are not headers are all dropped. */
  lemma {:induction false} NoOpenBlockDropsLines(st: ParserState, lines: seq<string>)
    requires st.open.None?
    requires forall j :: 0 <= j < |lines| ==> !IsHeaderLine(lines[j])
    ensures RunFrom(st, lines) == Ok(st)
    decreases |lines|
  {
    if lines != [] {
      assert forall j :: 0 <= j < |lines| - 1 ==> lines[1..][j] == lines[j + 1];
      NoOpenBlockDropsLines(st, lines[1..]);
    }
  }

  /** Lines before the first header do not affect the parse. */
  lemma PreambleDropped(preamble: seq<string>, rest: seq<string>)
    requires forall j :: 0 <= j < |preamble| ==> !IsHeaderLine(preamble[j])
    ensures RunFrom(INITIAL, preamble + rest) == RunFrom(INITIAL, rest)
  {
    RunFromAppend(INITIAL, preamble, rest);
    NoOpenBlockDropsLines(INITIAL, preamble);
  }

  // ---------------------------------------------------------------------------
  // Users belong to the most recent header

  /** With a block open and no header in `lines`, the finished blocks stay as
      they are and the open block gains the user records of the detail lines. */
  lemma {:induction false} OpenBlockCollectsDetails(st: ParserState, lines: seq<string>)
    requires st.open.Some?
    requires forall j :: 0 <= j < |lines| ==> !IsHeaderLine(lines[j])
    ensures RunFrom(st, lines) ==
      Ok(ParserState(st.done, Some(st.open.value.(users := st.open.value.users + DetailUsers(lines)))))
    decreases |lines|
  {
    var o := st.open.value;
    if lines == [] {
      assert o.users + [] == o.users;
    } else {
      StepInOpenBlock(st, lines[0]);
      var next := Step(st, lines[0]).value;
      assert forall j :: 0 <= j < |lines| - 1 ==> lines[1..][j] == lines[j + 1];
      OpenBlockCollectsDetails(next, lines[1..]);
      AppendAssoc(o.users, UserOf(lines[0]), DetailUsers(lines[1..]));
    }
  }

  /** A header line followed by non-header lines yields one block: the finished
      blocks gain the previously open block, and the new block holds the
      header's name and counts and the users of the following detail lines. */
  lemma HeaderCollectsFollowingDetails(st: ParserState, header: string, following: seq<string>)
    requires IsHeaderLine(header) && ParseHeader(Strip(header)).Ok?
    requires forall j :: 0 <= j < |following| ==> !IsHeaderLine(following[j])
    ensures RunFrom(st, [header] + following) ==
      Ok(ParserState(Finish(st), Some(ParseHeader(Strip(header)).value.(users := DetailUsers(following)))))
  {
    var b := ParseHeader(Strip(header)).value;
    HeaderOpensBlock(st, header, following);
    OpenBlockCollectsDetails(ParserState(Finish(st), Some(b)), following);
    assert b.users + DetailUsers(following) == DetailUsers(following) by {
      assert b.users == [];
    }
  }

  /** The run over a header line and what follows continues with that header's block open. */
  lemma HeaderOpensBlock(st: ParserState, header: string, following: seq<string>)
    requires IsHeaderLine(header) && ParseHeader(Strip(header)).Ok?
    ensures RunFrom(st, [header] + following) ==
      RunFrom(ParserState(Finish(st), Some(ParseHeader(Strip(header)).value)), following)
  {
    HeaderStep(st, header);
    RunFromCons(st, header, following);
  }

  /** Noise lines hold no user records. */
  lemma {:induction false} NoiseHasNoUsers(lines: seq<string>)
    requires forall j :: 0 <= j < |lines| ==> IsNoise(lines[j])
    ensures DetailUsers(lines) == []
    ensures forall j :: 0 <= j < |lines| ==> !IsHeaderLine(lines[j])
    decreases |lines|
  {
    if lines != [] {
      assert forall j :: 0 <= j < |lines| - 1 ==> lines[1..][j] == lines[j + 1];
      NoiseHasNoUsers(lines[1..]);
    }
  }

  /** A header with nothing but noise after it yields a block with no users,
      and that block is emitted when the input ends. */
  lemma HeaderWithoutDetailsIsEmpty(st: ParserState, header: string, following: seq<string>)
    requires IsHeaderLine(header) && ParseHeader(Strip(header)).Ok?
    requires forall j :: 0 <= j < |following| ==> IsNoise(following[j])
    ensures RunFrom(st, [header] + following).Ok?
    ensures var blocks := Finish(RunFrom(st, [header] + following).value);
      blocks == Finish(st) + [ParseHeader(Strip(header)).value] && blocks[|blocks| - 1].users == []
  {
    NoiseHasNoUsers(following);
    HeaderCollectsFollowingDetails(st, header, following);
    var b := ParseHeader(Strip(header)).value;
    assert b.(users := []) == b;
  }

  /** A noise line that also starts with "Users of" opens no block. */
  lemma IgnoredHeaderOpensNoBlock(st: ParserState, raw: string, k: nat)
    requires k < |IGNORED_KEYWORDS| && Contains(Strip(raw), IGNORED_KEYWORDS[k])
    ensures !IsHeaderLine(raw) && Step(st, raw) == Ok(st)
  {
  }
}
