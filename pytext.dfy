/**
 * The Python `str` operations the report parser relies on: `strip()`, `split()`
 * with no argument, `split(sep)`, `sep.join(...)`, `startswith`, the substring
 * test `sub in s`, `rstrip(':')` and `int()` on a token.
 *
 * Whitespace is the ASCII part of Python's `str.isspace()` (tab, LF, VT, FF, CR,
 * the four separator controls 0x1C-0x1F and the space); the non-ASCII Unicode
 * whitespace Python also recognises is not modelled.
 */
module PyText {
  import opened Wrappers

  predicate IsWs(c: char)
  {
    var n := c as int;
    (9 <= n <= 13) || (28 <= n <= 32)
  }

  predicate AllWs(s: string)
  {
    forall k :: 0 <= k < |s| ==> IsWs(s[k])
  }

  /** A token of `split()`: a non-empty run of non-whitespace characters. */
  predicate IsToken(t: string)
  {
    t != [] && forall k :: 0 <= k < |t| ==> !IsWs(t[k])
  }

  // ---------------------------------------------------------------------------
  // strip()

  /** The end of the whitespace run of `s` that starts at `lo`. */
  function SkipWsForward(s: string, lo: nat): (e: nat)
    requires lo <= |s|
    ensures lo <= e <= |s|
    ensures forall k :: lo <= k < e ==> IsWs(s[k])
    ensures e < |s| ==> !IsWs(s[e])
    decreases |s| - lo
  {
    if lo == |s| || !IsWs(s[lo]) then lo else SkipWsForward(s, lo + 1)
  }

  /** The start of the whitespace run of `s` that ends at `hi`, going no lower than `lo`. */
  function SkipWsBackward(s: string, lo: nat, hi: nat): (b: nat)
    requires lo <= hi <= |s|
    ensures lo <= b <= hi
    ensures forall k :: b <= k < hi ==> IsWs(s[k])
    ensures lo < b ==> !IsWs(s[b - 1])
    decreases hi
  {
    if hi == lo || !IsWs(s[hi - 1]) then hi else SkipWsBackward(s, lo, hi - 1)
  }

  /** Python `s.strip()`: the slice of `s` left once the whitespace at both ends is removed. */
  function Strip(s: string): (r: string)
    ensures r == [] <==> AllWs(s)
    ensures r != [] ==> !IsWs(r[0]) && !IsWs(r[|r| - 1])
    ensures exists i :: 0 <= i <= |s| - |r| && r == s[i..i + |r|] && AllWs(s[..i]) && AllWs(s[i + |r|..])
  {
    var i := SkipWsForward(s, 0);
    var j := SkipWsBackward(s, i, |s|);
    assert i < |s| ==> i < j;
    assert AllWs(s[..i]) && AllWs(s[j..]);
    s[i..j]
  }

  // ---------------------------------------------------------------------------
  // split() with no argument

  /** Length of the run of non-whitespace characters that starts `s`. */
  function TokenLen(s: string): (n: nat)
    ensures n <= |s|
    ensures forall k :: 0 <= k < n ==> !IsWs(s[k])
    ensures n < |s| ==> IsWs(s[n])
  {
    if s == [] || IsWs(s[0]) then 0 else 1 + TokenLen(s[1..])
  }

  /** Python `s.split()`: the maximal runs of non-whitespace characters, left to right. */
  function SplitWs(s: string): (toks: seq<string>)
    ensures forall i :: 0 <= i < |toks| ==> IsToken(toks[i])
    decreases |s|
  {
    if s == [] then []
    else if IsWs(s[0]) then SplitWs(s[1..])
    else
      var n := TokenLen(s);
      [s[..n]] + SplitWs(s[n..])
  }

  // ---------------------------------------------------------------------------
  // sep.join(parts)

  /** Python `sep.join(parts)`: the parts in order with `sep` between
      neighbours, so the text starts with the first part and ends with the last. */
  function Join(parts: seq<string>, sep: string): (r: string)
    ensures parts != [] ==> StartsWith(r, parts[0])
  {
    if parts == [] then []
    else if |parts| == 1 then parts[0]
    else parts[0] + sep + Join(parts[1..], sep)
  }

  // ---------------------------------------------------------------------------
  // substring search, `sub in s`, split(sep)

  /** `sub` occurs in `s` starting at index `i`. */
  predicate OccursAt(s: string, sub: string, i: int)
  {
    0 <= i && i + |sub| <= |s| && s[i..i + |sub|] == sub
  }

  /** Python `s.find(sub, from)`: the first index at or after `from` where `sub` occurs. */
  function Find(s: string, sub: string, from: nat): (r: Option<nat>)
    ensures r.Some? ==> from <= r.value && OccursAt(s, sub, r.value)
    ensures r.Some? ==> forall j :: from <= j < r.value ==> !OccursAt(s, sub, j)
    ensures r.None? ==> forall j :: from <= j ==> !OccursAt(s, sub, j)
    decreases |s| - from
  {
    if from + |sub| > |s| then None
    else if s[from..from + |sub|] == sub then Some(from)
    else Find(s, sub, from + 1)
  }

  /** Python `sub in s`. */
  function Contains(s: string, sub: string): (r: bool)
    ensures r <==> exists j :: OccursAt(s, sub, j)
  {
    Find(s, sub, 0).Some?
  }

  /** Python `s.split(sep)` for a non-empty separator: the pieces between the
      non-overlapping occurrences of `sep`, found from left to right. */
  function SplitOn(s: string, sep: string): (parts: seq<string>)
    requires sep != []
    ensures |parts| >= 1
    ensures Join(parts, sep) == s
    ensures forall k :: 0 <= k < |parts| ==> !Contains(parts[k], sep)
    decreases |s|
  {
    match Find(s, sep, 0)
    case None => [s]
    case Some(i) =>
      var rest := SplitOn(s[i + |sep|..], sep);
      NoEarlierOccurrence(s, sep, i);
      assert s == s[..i] + sep + s[i + |sep|..] by {
        assert s[i..i + |sep|] == sep;
        assert s == s[..i] + s[i..i + |sep|] + s[i + |sep|..];
      }
      [s[..i]] + rest
  }

  /** The prefix of `s` before the first occurrence of `sub` does not contain `sub`. */
  lemma NoEarlierOccurrence(s: string, sub: string, i: nat)
    requires sub != [] && i <= |s|
    requires forall j :: 0 <= j < i ==> !OccursAt(s, sub, j)
    ensures !Contains(s[..i], sub)
  {
    forall j | OccursAt(s[..i], sub, j) ensures false {
      assert s[..i][j..j + |sub|] == s[j..j + |sub|];
      assert OccursAt(s, sub, j);
    }
  }

  // ---------------------------------------------------------------------------
  // startswith, rstrip(':')

  /** Python `s.startswith(prefix)`: the first `|prefix|` characters of `s` are those of `prefix`. */
  predicate StartsWith(s: string, prefix: string)
  {
    |prefix| <= |s| && s[..|prefix|] == prefix
  }

  /** `s.startswith(prefix)` holds exactly when `prefix` matches the first characters of `s` one by one. */
  lemma StartsWithChars(s: string, prefix: string)
    ensures StartsWith(s, prefix) <==> |prefix| <= |s| && forall i :: 0 <= i < |prefix| ==> s[i] == prefix[i]
  {
    if |prefix| <= |s| && forall i :: 0 <= i < |prefix| ==> s[i] == prefix[i] {
      assert s[..|prefix|] == prefix;
    }
  }

  /** Python `s.rstrip(':')`: `s` without its trailing run of colons. */
  function RStripColons(s: string): (r: string)
    ensures |r| <= |s| && r == s[..|r|]
    ensures r == [] || r[|r| - 1] != ':'
    ensures forall k :: |r| <= k < |s| ==> s[k] == ':'
  {
    if s != [] && s[|s| - 1] == ':' then RStripColons(s[..|s| - 1]) else s
  }

  // ---------------------------------------------------------------------------
  // int() on a token

  predicate IsDigit(c: char)
  {
    '0' <= c <= '9'
  }

  predicate IsDigits(s: string)
  {
    s != [] && forall k :: 0 <= k < |s| ==> IsDigit(s[k])
  }

  /** The value of a string of decimal digits, most significant first. */
  function DigitsValue(s: string): nat
    requires forall k :: 0 <= k < |s| ==> IsDigit(s[k])
  {
    if s == [] then 0
    else
      assert IsDigit(s[|s| - 1]);
      DigitsValue(s[..|s| - 1]) * 10 + (s[|s| - 1] as int - '0' as int)
  }

  /** Python `int(tok)` restricted to an optional sign followed by ASCII digits;
      `None` where Python raises `ValueError`. */
  function ParseInt(tok: string): (r: Option<int>)
    ensures r.Some? <==> IsDigits(tok) || (|tok| >= 2 && tok[0] in "+-" && IsDigits(tok[1..]))
    ensures r.Some? && r.value < 0 ==> tok[0] == '-'
  {
    if IsDigits(tok) then Some(DigitsValue(tok))
    else if |tok| >= 2 && tok[0] == '-' && IsDigits(tok[1..]) then Some(0 - DigitsValue(tok[1..]) as int)
    else if |tok| >= 2 && tok[0] == '+' && IsDigits(tok[1..]) then Some(DigitsValue(tok[1..]))
    else None
  }

  /** Decimal rendering of a natural number, without leading zeros. */
  function ShowNat(n: nat): string
  {
    if n < 10 then [('0' as int + n) as char]
    else ShowNat(n / 10) + [('0' as int + n % 10) as char]
  }

  /** Decimal rendering of an integer, with a leading '-' when negative. */
  function ShowInt(n: int): string
  {
    if n < 0 then "-" + ShowNat(-n) else ShowNat(n)
  }

  // ---------------------------------------------------------------------------
  // Properties

  /** A whitespace character ends the token run that starts before it. */
  lemma {:induction false} TokenLenBeforeWs(a: string, c: char, b: string)
    requires IsWs(c)
    ensures TokenLen(a + [c] + b) == TokenLen(a)
    decreases |a|
  {
    if a != [] && !IsWs(a[0]) {
      assert (a + [c] + b)[1..] == a[1..] + [c] + b;
      TokenLenBeforeWs(a[1..], c, b);
    }
  }

  /** `split()` of a text cut at a whitespace character is the concatenation of
      the `split()` of the two sides. */
  lemma {:induction false} SplitWsAtWs(a: string, c: char, b: string)
    requires IsWs(c)
    ensures SplitWs(a + [c] + b) == SplitWs(a) + SplitWs(b)
    decreases |a|
  {
    var s := a + [c] + b;
    if a == [] {
      assert s[1..] == b;
    } else if IsWs(a[0]) {
      assert s[1..] == a[1..] + [c] + b;
      SplitWsAtWs(a[1..], c, b);
    } else {
      TokenLenBeforeWs(a, c, b);
      var n := TokenLen(a);
      assert s[..n] == a[..n];
      assert s[n..] == a[n..] + [c] + b;
      SplitWsAtWs(a[n..], c, b);
    }
  }

  /** A single token splits into itself. */
  lemma SplitWsOfToken(t: string)
    requires IsToken(t)
    ensures SplitWs(t) == [t]
  {
    assert !IsWs(t[0]);
    assert TokenLen(t) == |t|;
    assert t[..|t|] == t;
    assert t[|t|..] == [];
    assert SplitWs(t) == [t[..|t|]] + SplitWs(t[|t|..]);
  }

  /** `split()` undoes `' '.join(...)` of tokens. */
  lemma {:induction false} SplitWsJoin(toks: seq<string>)
    requires forall i :: 0 <= i < |toks| ==> IsToken(toks[i])
    ensures SplitWs(Join(toks, " ")) == toks
  {
    if |toks| == 1 {
      SplitWsOfToken(toks[0]);
    } else if |toks| > 1 {
      var rest := Join(toks[1..], " ");
      assert Join(toks, " ") == toks[0] + [' '] + rest;
      SplitWsAtWs(toks[0], ' ', rest);
      SplitWsOfToken(toks[0]);
      SplitWsJoin(toks[1..]);
      assert toks == [toks[0]] + toks[1..];
    }
  }

  /** `split()` gives no token exactly when the text is all whitespace (or empty). */
  lemma {:induction false} SplitWsEmptyIffAllWs(s: string)
    ensures SplitWs(s) == [] <==> AllWs(s)
    decreases |s|
  {
    if s != [] && IsWs(s[0]) {
      SplitWsEmptyIffAllWs(s[1..]);
      assert AllWs(s) <==> AllWs(s[1..]) by {
        assert forall k :: 0 < k < |s| ==> s[k] == s[1..][k - 1];
      }
    }
  }

  /** A text with a non-whitespace character has at least one token. */
  lemma {:induction false} SplitWsHasToken(s: string, k: nat)
    requires k < |s| && !IsWs(s[k])
    ensures |SplitWs(s)| >= 1
    decreases k
  {
    if IsWs(s[0]) {
      SplitWsHasToken(s[1..], k - 1);
    }
  }

  /** `sep.join(parts)` ends with the last part. */
  lemma {:induction false} JoinEndsWithLast(parts: seq<string>, sep: string)
    requires parts != []
    ensures var r, last := Join(parts, sep), parts[|parts| - 1]; |last| <= |r| && r[|r| - |last|..] == last
    decreases |parts|
  {
    if |parts| > 1 {
      var r, last, rest := Join(parts, sep), parts[|parts| - 1], Join(parts[1..], sep);
      assert parts[1..][|parts| - 2] == last;
      JoinEndsWithLast(parts[1..], sep);
      assert r == (parts[0] + sep) + rest;
      assert r[|r| - |last|..] == rest[|rest| - |last|..];
    }
  }

  /** `sep.join(parts)` spelled out for its first three parts. */
  lemma JoinFirstThree(parts: seq<string>, sep: string)
    requires |parts| >= 3
    ensures Join(parts, sep) ==
      parts[0] + sep + parts[1] + sep + parts[2] + (if |parts| > 3 then sep + Join(parts[3..], sep) else [])
  {
    var rest := if |parts| > 3 then sep + Join(parts[3..], sep) else [];
    assert parts[1..][0] == parts[1] && parts[1..][1..] == parts[2..];
    assert parts[2..][0] == parts[2] && parts[2..][1..] == parts[3..];
    assert Join(parts[2..], sep) == parts[2] + rest;
    assert Join(parts[1..], sep) == parts[1] + sep + (parts[2] + rest);
    assert Join(parts, sep) == parts[0] + sep + (parts[1] + sep + (parts[2] + rest));
  }

  /** A text that starts with a non-whitespace character and has two more
      whitespace-to-non-whitespace transitions has at least three tokens. */
  lemma ThreeTokens(s: string, a: nat, b: nat)
    requires 0 < a && a + 1 < b && b + 1 < |s|
    requires !IsWs(s[0]) && IsWs(s[a]) && !IsWs(s[a + 1]) && IsWs(s[b]) && !IsWs(s[b + 1])
    ensures |SplitWs(s)| >= 3
  {
    var first, mid, last := s[..a], s[a + 1..b], s[b + 1..];
    assert s == first + [s[a]] + (mid + [s[b]] + last);
    SplitWsAtWs(first, s[a], mid + [s[b]] + last);
    SplitWsAtWs(mid, s[b], last);
    SplitWsHasToken(first, 0);
    SplitWsHasToken(mid, 0);
    SplitWsHasToken(last, 0);
  }

  /** The decimal rendering of `n` is a string of digits whose value is `n`. */
  lemma {:induction false} ShowNatDigits(n: nat)
    ensures IsDigits(ShowNat(n)) && DigitsValue(ShowNat(n)) == n
  {
    var s := ShowNat(n);
    if n < 10 {
      assert s[..|s| - 1] == [];
    } else {
      ShowNatDigits(n / 10);
      assert s[..|s| - 1] == ShowNat(n / 10);
    }
  }

  /** `int()` reads back what decimal rendering writes. */
  lemma ParseShowInt(n: int)
    ensures ParseInt(ShowInt(n)) == Some(n)
  {
    if n < 0 {
      ShowNatDigits(-n);
      var s := ShowInt(n);
      assert s[1..] == ShowNat(-n);
      assert !IsDigits(s) by { assert !IsDigit(s[0]); }
    } else {
      ShowNatDigits(n);
    }
  }
}
