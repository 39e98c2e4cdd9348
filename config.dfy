/**
 * The line filter of `read_licenses` in generate_license_html_comb.py: of
 * the lines of the license list, comment lines (a '#' in the very first
 * column) and blank lines are skipped, and every other line is stripped and
 * split on commas into its fields, in file order.
 */
module Config {
  import opened PyText
  import opened Seqs

  /** A line `read_licenses` skips: '#' as its very first character, or nothing but whitespace. */
  predicate IsSkipped(line: string)
    ensures IsSkipped(line) <==> (|line| > 0 && line[0] == '#') || AllWs(line)
  {
    StartsWith(line, "#") || Strip(line) == []
  }

  /** The fields of a kept line: the line without surrounding whitespace, cut at each comma.
      They join back to the stripped line, and no field holds a comma. */
  function Fields(line: string): (r: seq<string>)
    ensures |r| >= 1 && Join(r, ",") == Strip(line)
    ensures forall k :: 0 <= k < |r| ==> !Contains(r[k], ",")
  {
    SplitOn(Strip(line), ",")
  }

  /** A single line, unless it is skipped. */
  function KeptLine(line: string): seq<string>
  {
    if IsSkipped(line) then [] else [line]
  }

  /** The lines that are not skipped, in file order. */
  function Kept(lines: seq<string>): (r: seq<string>)
    ensures |r| <= |lines|
    ensures forall k :: 0 <= k < |r| ==> !IsSkipped(r[k])
  {
    if lines == [] then [] else Kept(lines[..|lines| - 1]) + KeptLine(lines[|lines| - 1])
  }

  /** What `read_licenses` returns for the lines of the file: the fields of
      each kept line, one entry per kept line, no field holding a comma. */
  function Licenses(lines: seq<string>): (r: seq<seq<string>>)
    ensures |r| == |Kept(lines)|
    ensures forall k :: 0 <= k < |r| ==> |r[k]| >= 1 && forall i :: 0 <= i < |r[k]| ==> !Contains(r[k][i], ",")
  {
    if lines == [] then []
    else
      var last := lines[|lines| - 1];
      Licenses(lines[..|lines| - 1]) + (if IsSkipped(last) then [] else [Fields(last)])
  }

  /** `read_licenses` after the file is read: one pass over the lines. */
  method ReadLicenses(lines: seq<string>) returns (licenses: seq<seq<string>>)
    ensures licenses == Licenses(lines)
  {
    licenses := [];
    for i := 0 to |lines|
      invariant licenses == Licenses(lines[..i])
    {
      var line := lines[i];
      assert lines[..i + 1][..i] == lines[..i];
      if StartsWith(line, "#") || Strip(line) == [] {
        continue;
      }
      licenses := licenses + [SplitOn(Strip(line), ",")];
    }
    assert lines[..|lines|] == lines;
  }

  /** Entry `k` of the result is the fields of the `k`-th kept line. */
  lemma {:induction false} LicensesAreFieldsOfKept(lines: seq<string>)
    ensures |Licenses(lines)| == |Kept(lines)|
    ensures forall k :: 0 <= k < |Kept(lines)| ==> Licenses(lines)[k] == Fields(Kept(lines)[k])
    decreases |lines|
  {
    if lines != [] {
      LicensesAreFieldsOfKept(lines[..|lines| - 1]);
    }
  }

  /** Filtering keeps file order: the kept lines of two runs of lines are
      those of the first run, then those of the second. */
  lemma {:induction false} KeptAppend(a: seq<string>, b: seq<string>)
    ensures Kept(a + b) == Kept(a) + Kept(b)
    decreases |b|
  {
    if b == [] {
      assert a + b == a;
      assert Kept(a) + [] == Kept(a);
    } else {
      var init, last := b[..|b| - 1], b[|b| - 1];
      assert a + b == (a + init) + [last];
      assert init + [last] == b;
      KeptSnoc(a + init, last);
      KeptSnoc(init, last);
      KeptAppend(a, init);
      AppendAssoc(Kept(a), Kept(init), KeptLine(last));
    }
  }

  lemma KeptSnoc(lines: seq<string>, line: string)
    ensures Kept(lines + [line]) == Kept(lines) + KeptLine(line)
  {
    assert (lines + [line])[..|lines|] == lines;
  }

  /** A line is kept exactly when it is a line of the file that is not skipped. */
  lemma {:induction false} KeptIffNotSkipped(lines: seq<string>, line: string)
    ensures line in Kept(lines) <==> line in lines && !IsSkipped(line)
    decreases |lines|
  {
    if lines != [] {
      var init := lines[..|lines| - 1];
      assert lines == init + [lines[|lines| - 1]];
      KeptIffNotSkipped(init, line);
    }
  }

  /** A comment marker after leading whitespace does not make a comment: the
      line is kept, and its first field starts with '#'. */
  lemma IndentedCommentKept(line: string, k: nat)
    requires 0 < k < |line| && AllWs(line[..k]) && line[k] == '#'
    ensures !IsSkipped(line)
    ensures StartsWith(Fields(line)[0], "#")
  {
    LeadingHash(line, k);
  }

  /** Stripping a line that is whitespace and then '#' leaves a text starting with '#'. */
  lemma LeadingHash(line: string, k: nat)
    requires 0 < k < |line| && AllWs(line[..k]) && line[k] == '#'
    ensures Strip(line) != [] && Strip(line)[0] == '#'
  {
    var i := SkipWsForward(line, 0);
    assert i == k;
    var j := SkipWsBackward(line, i, |line|);
    assert Strip(line) == line[i..j];
  }
}
