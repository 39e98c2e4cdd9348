/**
 * Where the fields of a header line and of a detail line come from, stated in
 * terms of the tokens and "Total of" pieces of the line.
 */
module LmstatFields {
  import opened Wrappers
  import opened PyText
  import opened Lmstat

  /** Where the header fields come from: cut at each "Total of", the line has
      at least three pieces; `issued` is the value of the first token of the
      2nd piece (between the 1st and 2nd "Total of"), `inUse` that of the
      first token of the 3rd piece (after the 2nd), and the name is the 3rd
      token of the line with its trailing colons removed. */
  lemma HeaderFields(line: string)
    requires ParseHeader(line).Ok?
    ensures var parts := SplitOn(line, TOTAL_OF);
      |parts| >= 3 &&
      line == parts[0] + TOTAL_OF + parts[1] + TOTAL_OF + parts[2] +
        (if |parts| > 3 then TOTAL_OF + Join(parts[3..], TOTAL_OF) else [])
    ensures var parts := SplitOn(line, TOTAL_OF); var b := ParseHeader(line).value;
      |parts| >= 3 &&
      |SplitWs(parts[1])| > 0 && ParseInt(SplitWs(parts[1])[0]) == Some(b.issued) &&
      |SplitWs(parts[2])| > 0 && ParseInt(SplitWs(parts[2])[0]) == Some(b.inUse)
    ensures |SplitWs(line)| >= 3 && ParseHeader(line).value.name == RStripColons(SplitWs(line)[2])
  {
    JoinFirstThree(SplitOn(line, TOTAL_OF), TOTAL_OF);
  }

  /** The last character of space-joined tokens is not whitespace. */
  lemma {:induction false} JoinEndsInToken(toks: seq<string>)
    requires |toks| >= 1 && forall i :: 0 <= i < |toks| ==> IsToken(toks[i])
    ensures var j := Join(toks, " "); j != [] && !IsWs(j[|j| - 1])
  {
    if |toks| > 1 {
      JoinEndsInToken(toks[1..]);
    }
  }

  /** A detail line with at least four tokens: user and station are the 1st and
      2nd tokens, the 3rd is dropped, and the details are the 4th token onwards
      joined by single spaces, followed by one more space when the line has
      exactly four tokens; they split back into the 4th token onwards. */
  lemma UserFields(line: string)
    requires |SplitWs(line)| >= 4
    ensures var u := ParseUser(line).value; var toks := SplitWs(line);
      && u.user == toks[0] && u.station == toks[1]
      && u.details == Join(toks[3..], " ") + (if |toks| == 4 then " " else "")
      && SplitWs(u.details) == toks[3..]
      && (u.details[|u.details| - 1] == ' ' <==> |toks| == 4)
  {
    DetailsOfTokens(SplitWs(line));
  }

  /** The details built from the tokens of a detail line. */
  lemma DetailsOfTokens(toks: seq<string>)
    requires |toks| >= 4 && forall i :: 0 <= i < |toks| ==> IsToken(toks[i])
    ensures var d := toks[3] + " " + Join(toks[4..], " ");
      && d == Join(toks[3..], " ") + (if |toks| == 4 then " " else "")
      && SplitWs(d) == toks[3..] && (d[|d| - 1] == ' ' <==> |toks| == 4)
  {
    var tail := Join(toks[4..], " ");
    DetailsAsJoin(toks);
    SplitWsAtWs(toks[3], ' ', tail);
    SplitWsOfToken(toks[3]);
    SplitWsJoin(toks[4..]);
    assert toks[3..] == [toks[3]] + toks[4..];
    if |toks| > 4 {
      JoinEndsInToken(toks[4..]);
    }
  }

  /** The 4th token, a space and the rest joined by spaces: the 4th token onwards
      joined by spaces, plus a trailing space when there is no rest. */
  lemma DetailsAsJoin(toks: seq<string>)
    requires |toks| >= 4
    ensures toks[3] + " " + Join(toks[4..], " ") == Join(toks[3..], " ") + (if |toks| == 4 then " " else "")
  {
    var rest := toks[3..];
    assert rest[0] == toks[3] && rest[1..] == toks[4..];
    if |toks| == 4 {
      assert Join(toks[4..], " ") == [];
      assert Join(rest, " ") == toks[3];
    }
  }
}
