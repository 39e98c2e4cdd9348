/**
 * When `parse_log` fails: exactly when a header line cannot be read, and then
 * with the error of the first such line, whatever follows it.
 */
module LmstatErrors {
  import opened Wrappers
  import opened PyText
  import opened Lmstat
  import opened LmstatRuns

  /** The parse aborts with the error of the first unreadable header line. */
  lemma FirstBadHeaderAborts(st: ParserState, lines: seq<string>, i: nat)
    requires i < |lines| && IsBadHeader(lines[i])
    requires forall j :: 0 <= j < i ==> !IsBadHeader(lines[j])
    ensures RunFrom(st, lines) == Err(ParseHeader(Strip(lines[i])).error)
  {
    assert lines[0..] == lines;
    BadHeaderAbortsFrom(st, lines, 0, i);
  }

  /** The same, for the run from line `k` on. */
  lemma {:induction false} BadHeaderAbortsFrom(st: ParserState, lines: seq<string>, k: nat, i: nat)
    requires k <= i < |lines| && IsBadHeader(lines[i])
    requires forall j :: k <= j < i ==> !IsBadHeader(lines[j])
    ensures RunFrom(st, lines[k..]) == Err(ParseHeader(Strip(lines[i])).error)
    decreases i - k
  {
    if k < i {
      GoodLineStep(st, lines, k);
      BadHeaderAbortsFrom(Step(st, lines[k]).value, lines, k + 1, i);
    } else {
      BadLineStep(st, lines, k);
    }
  }

  lemma GoodLineStep(st: ParserState, lines: seq<string>, k: nat)
    requires k < |lines| && !IsBadHeader(lines[k])
    ensures Step(st, lines[k]).Ok?
    ensures RunFrom(st, lines[k..]) == RunFrom(Step(st, lines[k]).value, lines[k + 1..])
  {
    RunFromUnfold(st, lines[k..]);
    assert lines[k..][0] == lines[k] && lines[k..][1..] == lines[k + 1..];
    StepFailsOnlyOnBadHeader(st, lines[k]);
  }

  lemma BadLineStep(st: ParserState, lines: seq<string>, k: nat)
    requires k < |lines| && IsBadHeader(lines[k])
    ensures RunFrom(st, lines[k..]) == Err(ParseHeader(Strip(lines[k])).error)
  {
    RunFromUnfold(st, lines[k..]);
    assert lines[k..][0] == lines[k];
    StepFailsOnlyOnBadHeader(st, lines[k]);
  }

  /** Without an unreadable header line the parse succeeds. */
  lemma {:induction false} NoBadHeaderSucceeds(st: ParserState, lines: seq<string>)
    requires forall j :: 0 <= j < |lines| ==> !IsBadHeader(lines[j])
    ensures RunFrom(st, lines).Ok?
    decreases |lines|
  {
    if lines != [] {
      StepFailsOnlyOnBadHeader(st, lines[0]);
      assert forall j :: 0 <= j < |lines| - 1 ==> lines[1..][j] == lines[j + 1];
      NoBadHeaderSucceeds(Step(st, lines[0]).value, lines[1..]);
    }
  }

  /** The least index of an unreadable header line, given that one exists at or before `i`. */
  lemma {:induction false} FirstBadHeader(lines: seq<string>, i: nat) returns (first: nat)
    requires i < |lines| && IsBadHeader(lines[i])
    ensures first <= i && IsBadHeader(lines[first])
    ensures forall j :: 0 <= j < first ==> !IsBadHeader(lines[j])
    decreases i
  {
    first := i;
    if exists j :: 0 <= j < i && IsBadHeader(lines[j]) {
      var j :| 0 <= j < i && IsBadHeader(lines[j]);
      first := FirstBadHeader(lines, j);
    }
  }

  /** `parse_log` raises exactly when some header line cannot be read, and
      then with the error of the first such line; a bad header is never read
      as zero counts. */
  lemma ParseFailsIffBadHeader(logData: string)
    ensures ParsedReport(logData).Err? <==>
      exists j :: 0 <= j < |ReportLines(logData)| && IsBadHeader(ReportLines(logData)[j])
    ensures forall j ::
      (0 <= j < |ReportLines(logData)| && IsBadHeader(ReportLines(logData)[j]) &&
       forall k :: 0 <= k < j ==> !IsBadHeader(ReportLines(logData)[k])) ==>
      ParsedReport(logData) == Err(ParseHeader(Strip(ReportLines(logData)[j])).error)
  {
    var lines := ReportLines(logData);
    if exists j :: 0 <= j < |lines| && IsBadHeader(lines[j]) {
      var j :| 0 <= j < |lines| && IsBadHeader(lines[j]);
      var first := FirstBadHeader(lines, j);
      FirstBadHeaderAborts(INITIAL, lines, first);
    } else {
      NoBadHeaderSucceeds(INITIAL, lines);
    }
    forall j | 0 <= j < |lines| && IsBadHeader(lines[j]) && (forall k :: 0 <= k < j ==> !IsBadHeader(lines[k]))
      ensures ParsedReport(logData) == Err(ParseHeader(Strip(lines[j])).error)
    {
      FirstBadHeaderAborts(INITIAL, lines, j);
    }
  }

  /** The loop never stops for want of a name: every header line has a third token. */
  lemma {:induction false} RunNeverMissesName(st: ParserState, lines: seq<string>)
    ensures RunFrom(st, lines).Err? ==> RunFrom(st, lines).error != MissingName
    decreases |lines|
  {
    if lines != [] {
      StepFailsOnlyOnBadHeader(st, lines[0]);
      if Step(st, lines[0]).Ok? {
        RunNeverMissesName(Step(st, lines[0]).value, lines[1..]);
      }
    }
  }

  /** `parse_log` never raises for want of a name. */
  lemma ReportNeverMissesName(logData: string)
    ensures ParsedReport(logData).Err? ==> ParsedReport(logData).error != MissingName
  {
    RunNeverMissesName(INITIAL, ReportLines(logData));
  }
}
