/**
 * The vocabulary in which the guarantees of `parse_log` are stated (header
 * lines, unreadable headers, noise lines, the block and user record a line
 * stands for), and the effect of a single line on the parser state: the run
 * is a fold of `Step` over the lines, and each kind of line has one effect.
 */
module LmstatRuns {
  import opened Wrappers
  import opened PyText
  import opened Lmstat

  // ---------------------------------------------------------------------------
  // Vocabulary

  /** A stripped, non-blank, non-noise line that starts with "Users of". */
  predicate IsHeaderLine(raw: string)
  {
    Classify(raw) == Header
  }

  /** A header line whose counts cannot be read. */
  predicate IsBadHeader(raw: string)
  {
    Classify(raw) == Header && ParseHeader(Strip(raw)).Err?
  }

  /** A line the loop never acts on: blank, noise, or a non-header line with
      fewer than four tokens. */
  predicate IsNoise(raw: string)
  {
    match Classify(raw)
    case Blank => true
    case Ignored => true
    case Header => false
    case Body => |SplitWs(Strip(raw))| < 4
  }

  /** The header block a raw line stands for: one for a readable header line, none otherwise. */
  function HeaderBlockOf(raw: string): seq<Block>
  {
    var head := ParseHeader(Strip(raw));
    if IsHeaderLine(raw) && head.Ok? then [head.value] else []
  }

  /** The header blocks of the readable header lines of `lines`, in order. */
  function HeaderBlocks(lines: seq<string>): seq<Block>
  {
    if lines == [] then [] else HeaderBlockOf(lines[0]) + HeaderBlocks(lines[1..])
  }

  /** The number of header lines of `lines`. */
  function CountHeaders(lines: seq<string>): nat
  {
    if lines == [] then 0
    else (if IsHeaderLine(lines[0]) then 1 else 0) + CountHeaders(lines[1..])
  }

  /** The user record a raw line stands for: one for a detail line with at least four tokens. */
  function UserOf(raw: string): seq<UserRec>
  {
    var user := ParseUser(Strip(raw));
    if Classify(raw) == Body && user.Some? then [user.value] else []
  }

  /** The user records read from the detail lines of `lines`, in order. */
  function DetailUsers(lines: seq<string>): seq<UserRec>
  {
    if lines == [] then [] else UserOf(lines[0]) + DetailUsers(lines[1..])
  }

  /** The blocks with their user lists emptied: what the header lines alone determine. */
  function WithoutUsers(blocks: seq<Block>): (r: seq<Block>)
    ensures |r| == |blocks|
    ensures forall i :: 0 <= i < |blocks| ==> r[i] == blocks[i].(users := [])
  {
    seq(|blocks|, i requires 0 <= i < |blocks| => blocks[i].(users := []))
  }

  /** Continue a run from an intermediate outcome. */
  function Then(r: Result<ParserState, ParseError>, lines: seq<string>): Result<ParserState, ParseError>
  {
    match r
    case Err(e) => Err(e)
    case Ok(st) => RunFrom(st, lines)
  }

  // ---------------------------------------------------------------------------
  // The run is a fold

  /** Running over `a + b` is running over `a`, then over `b`. */
  lemma {:induction false} RunFromAppend(st: ParserState, a: seq<string>, b: seq<string>)
    ensures RunFrom(st, a + b) == Then(RunFrom(st, a), b)
    decreases |a|
  {
    if a == [] {
      assert a + b == b;
    } else {
      assert (a + b)[0] == a[0];
      assert (a + b)[1..] == a[1..] + b;
      match Step(st, a[0]) {
        case Err(e) =>
        case Ok(next) => RunFromAppend(next, a[1..], b);
      }
    }
  }

  /** A run over a non-empty sequence of lines steps over the first one, then runs over the rest. */
  lemma RunFromUnfold(st: ParserState, lines: seq<string>)
    requires lines != []
    ensures RunFrom(st, lines) == Then(Step(st, lines[0]), lines[1..])
  {
  }

  /** Running over a line and then the rest is stepping over that line, then running. */
  lemma RunFromCons(st: ParserState, line: string, rest: seq<string>)
    ensures RunFrom(st, [line] + rest) == Then(Step(st, line), rest)
  {
    assert ([line] + rest)[0] == line;
    assert ([line] + rest)[1..] == rest;
  }

  // ---------------------------------------------------------------------------
  // One line at a time

  /** A noise line leaves every state as it is. */
  lemma NoiseStep(st: ParserState, raw: string)
    requires IsNoise(raw)
    ensures Step(st, raw) == Ok(st)
  {
  }

  /** A header line closes the open block and opens the one it describes. */
  lemma HeaderStep(st: ParserState, raw: string)
    requires IsHeaderLine(raw) && ParseHeader(Strip(raw)).Ok?
    ensures Step(st, raw) == Ok(ParserState(Finish(st), Some(ParseHeader(Strip(raw)).value)))
    ensures HeaderBlockOf(raw) == [ParseHeader(Strip(raw)).value]
  {
  }

  /** With no block open, a line that is not a header changes nothing. */
  lemma StepWithoutOpenBlock(st: ParserState, raw: string)
    requires st.open.None? && !IsHeaderLine(raw)
    ensures Step(st, raw) == Ok(st) && HeaderBlockOf(raw) == []
  {
  }

  /** With a block open, a line that is not a header adds its user record, if any, to that block. */
  lemma StepInOpenBlock(st: ParserState, raw: string)
    requires st.open.Some? && !IsHeaderLine(raw)
    ensures Step(st, raw) == Ok(ParserState(st.done, Some(st.open.value.(users := st.open.value.users + UserOf(raw)))))
  {
    assert st.open.value.users + [] == st.open.value.users;
  }

  /** A step fails only on a header line that cannot be read, and never for
      want of a name, since every header line has a third token. */
  lemma StepFailsOnlyOnBadHeader(st: ParserState, raw: string)
    ensures Step(st, raw).Err? <==> IsBadHeader(raw)
    ensures IsBadHeader(raw) ==> Step(st, raw) == Err(ParseHeader(Strip(raw)).error)
    ensures Step(st, raw).Err? ==> Step(st, raw).error != MissingName
  {
    if Classify(raw) == Header {
      HeaderNameAlwaysPresent(Strip(raw));
    }
  }

  // ---------------------------------------------------------------------------
  // Blocks without their users

  lemma WithoutUsersAppend(a: seq<Block>, b: seq<Block>)
    ensures WithoutUsers(a + b) == WithoutUsers(a) + WithoutUsers(b)
  {
  }

  /** The users of the last block do not show once users are removed. */
  lemma UsersInvisible(done: seq<Block>, b: Block, users: seq<UserRec>)
    ensures WithoutUsers(done + [b.(users := users)]) == WithoutUsers(done + [b])
  {
    WithoutUsersAppend(done, [b.(users := users)]);
    WithoutUsersAppend(done, [b]);
  }
}
