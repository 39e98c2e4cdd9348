/**
 * The parser of `lmutil lmstat -A` status reports: the noise filter
 * `is_ignored_line` and the line-oriented state machine `parse_log` of
 * generate_license_html_comb.py.
 *
 * The report is cut into lines; each line is stripped, blank and noise lines
 * are skipped, a line starting with "Users of" closes the open block and opens
 * a new one, and any other line with at least four tokens becomes a user
 * record of the open block. A header whose counts cannot be read aborts the
 * whole parse.
 */
module Lmstat {
  import opened Wrappers
  import opened PyText

  /** Substrings that mark a line as noise: vendor banners, expiry notices,
      manager headers, clock notices, file ids, scan progress, usage summaries. */
  const IGNORED_KEYWORDS: seq<string> := [
    "vendor_string", "floating license", "expiry", "vendor:", "license manager:",
    "system clock", "File ID:", "Detecting lmgrd processes", "Feature usage info"
  ]

  /** The prefix of a block header line. */
  const HEADER_PREFIX: string := "Users of"

  /** The marker that precedes each of the two counts of a header line. */
  const TOTAL_OF: string := "Total of"

  /** One checkout of a license. */
  datatype UserRec = UserRec(user: string, station: string, details: string)

  /** The usage section of one license: its header counts and its users, in report order. */
  datatype Block = Block(name: string, issued: int, inUse: int, users: seq<UserRec>)

  /** Why a header line could not be read (the source raises IndexError or ValueError). */
  datatype ParseError =
    | MissingTotal(occurrence: nat)   // the line has fewer than `occurrence` "Total of"
    | MissingCount(occurrence: nat)   // only whitespace follows that "Total of"
    | NotAnInteger(token: string)     // the count token is not an integer
    | MissingName                     // the line has fewer than three tokens

  // ---------------------------------------------------------------------------
  // is_ignored_line

  /** Some keyword of `keywords` occurs in `line`. */
  function AnyContained(line: string, keywords: seq<string>): (r: bool)
    ensures r <==> exists k :: 0 <= k < |keywords| && Contains(line, keywords[k])
  {
    if keywords == [] then false
    else
      assert forall k :: 0 < k < |keywords| ==> keywords[k] == keywords[1..][k - 1];
      Contains(line, keywords[0]) || AnyContained(line, keywords[1..])
  }

  /** `is_ignored_line`: a case-sensitive substring test against the nine noise keywords. */
  function IsIgnoredLine(line: string): (r: bool)
    ensures r <==> exists k :: 0 <= k < |IGNORED_KEYWORDS| && Contains(line, IGNORED_KEYWORDS[k])
  {
    AnyContained(line, IGNORED_KEYWORDS)
  }

  // ---------------------------------------------------------------------------
  // Header and detail lines

  /** The integer that starts the `k`-th piece of a header split on "Total of":
      `int(parts[k].split()[0])`. */
  function CountAfter(parts: seq<string>, k: nat): (r: Result<int, ParseError>)
    ensures r == Err(MissingTotal(k)) <==> |parts| <= k
    ensures r == Err(MissingCount(k)) <==> k < |parts| && SplitWs(parts[k]) == []
    ensures r.Ok? ==> k < |parts| && SplitWs(parts[k]) != [] && ParseInt(SplitWs(parts[k])[0]) == Some(r.value)
    ensures r.Ok? <==> k < |parts| && SplitWs(parts[k]) != [] && ParseInt(SplitWs(parts[k])[0]).Some?
  {
    if |parts| <= k then Err(MissingTotal(k))
    else
      var toks := SplitWs(parts[k]);
      if toks == [] then Err(MissingCount(k))
      else match ParseInt(toks[0])
        case None => Err(NotAnInteger(toks[0]))
        case Some(n) => Ok(n)
  }

  /** Reads a header line: the counts after the 1st and 2nd "Total of" and the
      name from the 3rd token with its trailing colons removed. */
  function ParseHeader(line: string): (r: Result<Block, ParseError>)
    ensures r.Ok? ==> r.value.users == []
    ensures r.Ok? ==> r.value.name == [] || r.value.name[|r.value.name| - 1] != ':'
    ensures r.Ok? ==> |SplitOn(line, TOTAL_OF)| >= 3
  {
    var parts := SplitOn(line, TOTAL_OF);
    match CountAfter(parts, 1)
    case Err(e) => Err(e)
    case Ok(issued) =>
      match CountAfter(parts, 2)
      case Err(e) => Err(e)
      case Ok(inUse) =>
        var toks := SplitWs(line);
        if |toks| < 3 then Err(MissingName)
        else Ok(Block(RStripColons(toks[2]), issued, inUse, []))
  }

  /** Reads a detail line: user and station are the 1st and 2nd tokens, the 3rd
      is dropped, and the details are the 4th token, a space, and the rest
      joined by spaces. `None` when the line has fewer than four tokens. */
  function ParseUser(line: string): (r: Option<UserRec>)
    ensures r.Some? <==> |SplitWs(line)| >= 4
  {
    var toks := SplitWs(line);
    if |toks| < 4 then None
    else Some(UserRec(toks[0], toks[1], toks[3] + " " + Join(toks[4..], " ")))
  }

  /** A line that starts with "Users of" and contains "Total of" has at least
      three tokens: "Users", "of", and what follows up to "Total". */
  lemma HeaderHasThreeTokens(line: string)
    requires StartsWith(line, HEADER_PREFIX) && Contains(line, TOTAL_OF)
    ensures |SplitWs(line)| >= 3
  {
    var p :| OccursAt(line, TOTAL_OF, p);
    assert line[p] == 'T' && line[p + 5] == ' ' && line[p + 6] == 'o' by {
      assert line[p..p + |TOTAL_OF|] == TOTAL_OF;
      assert line[p..p + |TOTAL_OF|][0] == line[p];
      assert line[p..p + |TOTAL_OF|][5] == line[p + 5];
      assert line[p..p + |TOTAL_OF|][6] == line[p + 6];
    }
    assert line[0] == 'U' && line[1] == 's' && line[5] == ' ' && line[6] == 'o' by {
      assert line[..|HEADER_PREFIX|] == HEADER_PREFIX;
      assert line[..8][0] == line[0] && line[..8][1] == line[1];
      assert line[..8][5] == line[5] && line[..8][6] == line[6];
    }
    ThreeTokens(line, 5, p + 5);
  }

  /** A header never fails for want of a name: when both counts can be read,
      the line has a third token. */
  lemma HeaderNameAlwaysPresent(line: string)
    requires StartsWith(line, HEADER_PREFIX)
    ensures ParseHeader(line) != Err(MissingName)
  {
    var parts := SplitOn(line, TOTAL_OF);
    if |parts| >= 2 {
      assert Contains(line, TOTAL_OF) by {
        assert Find(line, TOTAL_OF, 0).Some?;
      }
      HeaderHasThreeTokens(line);
    }
  }

  /** A header line is read exactly when it has two "Total of" and the first
      token after each of them is an integer. */
  lemma HeaderReadable(line: string)
    requires StartsWith(line, HEADER_PREFIX)
    ensures var parts := SplitOn(line, TOTAL_OF);
      ParseHeader(line).Ok? <==>
        && |parts| >= 3
        && SplitWs(parts[1]) != [] && ParseInt(SplitWs(parts[1])[0]).Some?
        && SplitWs(parts[2]) != [] && ParseInt(SplitWs(parts[2])[0]).Some?
  {
    HeaderNameAlwaysPresent(line);
  }

  // ---------------------------------------------------------------------------
  // parse_log

  /** How the loop of `parse_log` treats a raw report line. */
  datatype LineKind = Blank | Ignored | Header | Body

  /** Blank exactly when the raw line is all whitespace; a line holding a
      noise keyword is never a header; a header starts with "Users of". */
  function Classify(raw: string): (r: LineKind)
    ensures r == Blank <==> AllWs(raw)
    ensures r == Ignored <==> !AllWs(raw) && IsIgnoredLine(Strip(raw))
    ensures r == Header ==> StartsWith(Strip(raw), HEADER_PREFIX)
    ensures r == Body ==> !AllWs(raw) && !StartsWith(Strip(raw), HEADER_PREFIX)
  {
    var line := Strip(raw);
    if line == [] then Blank
    else if IsIgnoredLine(line) then Ignored
    else if StartsWith(line, HEADER_PREFIX) then Header
    else Body
  }

  /** The state of the loop: the finished blocks and the block still open, if any. */
  datatype ParserState = ParserState(done: seq<Block>, open: Option<Block>)

  const INITIAL: ParserState := ParserState([], None)

  function Flush(open: Option<Block>): seq<Block>
  {
    if open.Some? then [open.value] else []
  }

  /** The blocks the state stands for once the open block is emitted. */
  function Finish(st: ParserState): seq<Block>
  {
    st.done + Flush(st.open)
  }

  /** One iteration of the loop of `parse_log` on a raw line. A line that is
      not a header leaves the finished blocks as they are; when a step fails
      is proved in `LmstatRuns.StepFailsOnlyOnBadHeader`. */
  function Step(st: ParserState, raw: string): (r: Result<ParserState, ParseError>)
    ensures r.Ok? && Classify(raw) != Header ==> r.value.done == st.done
  {
    match Classify(raw)
    case Blank => Ok(st)
    case Ignored => Ok(st)
    case Header =>
      (match ParseHeader(Strip(raw))
       case Err(e) => Err(e)
       case Ok(b) => Ok(ParserState(Finish(st), Some(b))))
    case Body =>
      if st.open.None? then Ok(st)
      else
        match ParseUser(Strip(raw))
        case None => Ok(st)
        case Some(u) =>
          var b := st.open.value;
          Ok(ParserState(st.done, Some(b.(users := b.users + [u]))))
  }

  /** The loop of `parse_log` run from `st` over `lines`; the first error stops it. */
  function RunFrom(st: ParserState, lines: seq<string>): (r: Result<ParserState, ParseError>)
    decreases |lines|
  {
    if lines == [] then Ok(st)
    else
      match Step(st, lines[0])
      case Err(e) => Err(e)
      case Ok(next) => RunFrom(next, lines[1..])
  }

  /** `log_data.strip().split('\n')`. */
  function ReportLines(logData: string): seq<string>
  {
    SplitOn(Strip(logData), "\n")
  }

  /** What `parse_log` returns, or the error it raises. */
  function ParsedReport(logData: string): (r: Result<seq<Block>, ParseError>)
  {
    match RunFrom(INITIAL, ReportLines(logData))
    case Err(e) => Err(e)
    case Ok(st) => Ok(Finish(st))
  }

  /** `parse_log`: one pass over the lines, keeping the finished blocks and the open one. */
  method ParseLog(logData: string) returns (r: Result<seq<Block>, ParseError>)
    ensures r == ParsedReport(logData)
  {
    var lines := SplitOn(Strip(logData), "\n");
    var licenseInfo: seq<Block> := [];
    var current: Option<Block> := None;
    assert lines[0..] == lines;
    for i := 0 to |lines|
      invariant RunFrom(INITIAL, lines) == RunFrom(ParserState(licenseInfo, current), lines[i..])
    {
      ghost var before := ParserState(licenseInfo, current);
      var line := Strip(lines[i]);
      if line == [] || IsIgnoredLine(line) {
        SkippedLine(before, lines, i);
        continue;
      }
      if StartsWith(line, HEADER_PREFIX) {
        HeaderLine(before, lines, i);
        if current.Some? {
          licenseInfo := licenseInfo + [current.value];
        }
        assert licenseInfo == before.done + Flush(before.open);
        var header := ParseHeader(line);
        if header.Err? {
          return Err(header.error);
        }
        current := Some(header.value);
      } else if current.Some? {
        BodyLine(before, lines, i);
        var user := ParseUser(line);
        if user.Some? {
          current := Some(current.value.(users := current.value.users + [user.value]));
        }
      } else {
        BodyLine(before, lines, i);
      }
    }
    assert lines[|lines|..] == [];
    return Ok(licenseInfo + Flush(current));
  }

  // The effect of one line on the rest of the run, by kind of line.

  lemma SkippedLine(st: ParserState, lines: seq<string>, i: nat)
    requires i < |lines| && (Strip(lines[i]) == [] || IsIgnoredLine(Strip(lines[i])))
    ensures RunFrom(st, lines[i..]) == RunFrom(st, lines[i + 1..])
  {
    assert lines[i..][1..] == lines[i + 1..];
  }

  lemma HeaderLine(st: ParserState, lines: seq<string>, i: nat)
    requires i < |lines| && Strip(lines[i]) != [] && !IsIgnoredLine(Strip(lines[i]))
    requires StartsWith(Strip(lines[i]), HEADER_PREFIX)
    ensures RunFrom(st, lines[i..]) ==
      match ParseHeader(Strip(lines[i]))
      case Err(e) => Err(e)
      case Ok(b) => RunFrom(ParserState(st.done + Flush(st.open), Some(b)), lines[i + 1..])
  {
    assert lines[i..][1..] == lines[i + 1..];
  }

  lemma BodyLine(st: ParserState, lines: seq<string>, i: nat)
    requires i < |lines| && Strip(lines[i]) != [] && !IsIgnoredLine(Strip(lines[i]))
    requires !StartsWith(Strip(lines[i]), HEADER_PREFIX)
    ensures RunFrom(st, lines[i..]) ==
      if st.open.None? then RunFrom(st, lines[i + 1..])
      else match ParseUser(Strip(lines[i]))
        case None => RunFrom(st, lines[i + 1..])
        case Some(u) =>
          RunFrom(ParserState(st.done, Some(st.open.value.(users := st.open.value.users + [u]))), lines[i + 1..])
  {
    assert lines[i..][1..] == lines[i + 1..];
  }
}
