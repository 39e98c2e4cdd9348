# License usage report parser, modelled in Dafny

`generate_license_html_comb.py` polls FlexNet license servers with
`lmutil lmstat -A` and publishes one HTML page per license. Its core turns
the text report into records, and this project models that core:

- **`is_ignored_line`**: a case-sensitive substring test against nine fixed
  noise keywords (vendor banners, expiry notices, manager headers, clock
  notices, file ids, scan progress, usage summaries).
- **`parse_log`**: a one-pass state machine over the report's lines. Each
  line is stripped; blank and noise lines are skipped. A line starting with
  `Users of` closes the open block and opens a new one. Its issued and
  in-use counts are the first tokens after the 1st and 2nd `Total of`. Its
  name is the 3rd token with trailing colons removed. Any other line with at
  least four tokens becomes a user record (user, station, details) of the
  open block. A header whose counts cannot be read aborts the parse.
- **`create_dataframe`**: flattens the blocks into one table row per user:
  (License, User, Station, Total Issued, Total In Use, Total Free, Details),
  with Free = Issued − In Use.
- **The line filter of `read_licenses`**: skips comment lines (a `#` in the
  very first column) and blank lines, then strips every other line and
  splits it on commas.

Modules:

- `Wrappers` (`wrappers.dfy`): `Option` and `Result`.
- `Seqs` (`seqs.dfy`): a general fact about sequence concatenation.
- `PyText` (`pytext.dfy`): the Python `str` operations the parser uses:
  `strip()`, `split()`, `split(sep)`, `sep.join`, `startswith`, `in`,
  `rstrip(':')` and `int()`.
  - The contracts of `Strip`, `Find`, `Contains`, `RStripColons` and
    `SplitOn` fix their results. `SplitOn`'s does so for the separators
    used here.
  - Lemmas fix `split()`: `SplitWsEmptyIffAllWs`, `SplitWsOfToken` and
    `SplitWsAtWs`. `SplitWsJoin` shows that `split()` undoes `' '.join`.
  - The lemma `StartsWithChars` fixes `startswith`.
  - `Join` is defined by its body: the parts with `sep` between
    neighbours. `JoinFirstThree` and `JoinEndsWithLast` state the facts
    the proofs use.
  - The contract of `ParseInt` says which tokens `int()` reads.
    `ParseShowInt` says that a decimal rendering reads back to its value.
- `Lmstat` (`lmstat.dfy`): the noise filter, the header and detail line
  readers, and `parse_log`.
  - The function `ParsedReport` is its specification: a fold of `Step`
    over the lines, stopped by the first error.
  - The method `ParseLog` is the loop of the source, proved equal to that
    fold.
- What the parse guarantees, proved about the fold, in four modules:
  - `LmstatRuns` (`lmstat_runs.dfy`): the vocabulary (header lines,
    unreadable headers, noise lines) and the effect of one line on the
    parser state.
  - `LmstatBlocks` (`lmstat_blocks.dfy`): one block per header line, in
    order; noise and preamble lines change nothing; users go to the most
    recent header.
  - `LmstatErrors` (`lmstat_errors.dfy`): the parse fails exactly on an
    unreadable header line, with the first one's error.
  - `LmstatFields` (`lmstat_fields.dfy`): where the fields of header and
    detail lines come from.
- `Report` (`report.dfy`): `create_dataframe`, as a nested loop proved equal
  to the function `Rows`.
- `Config` (`config.dfy`): the `read_licenses` filter, as a loop proved
  equal to the function `Licenses`.

Python raises `IndexError` or `ValueError` on a malformed header. The model
returns `Err` with a `ParseError` instead: `MissingTotal`, `MissingCount`,
`NotAnInteger` or `MissingName`. `MissingName` is kept because the source
indexes the 3rd token. `HeaderNameAlwaysPresent` proves it cannot occur on a
line that starts with `Users of`.

Some facts are modelled as the code has them, although a first reading
suggests otherwise:

- The header test is a prefix test, so `Users offset ...` is a header too.
- A detail line with exactly four tokens gets details ending in a space
  (`UserFields`).
- All trailing colons are removed from the name, not just one.
- The comment test of `read_licenses` looks at the unstripped line, so a
  `#` line indented by any amount of whitespace is kept
  (`IndentedCommentKept`).

## Model

| member | source | states |
|---|---|---|
| Lmstat.IsIgnoredLine | generate_license_html_comb.py:28-33 | a line is noise exactly when one of the nine keywords occurs in it, case-sensitively |
| Lmstat.AnyContained | generate_license_html_comb.py:33 | `any(keyword in line ...)` holds exactly when some keyword of the list occurs in the line |
| Lmstat.ParseHeader | generate_license_html_comb.py:48-56 | a header that reads opens a block with no users, its name never ends in ':', and the line has at least two "Total of" |
| Lmstat.ParseUser | generate_license_html_comb.py:58-66 | a detail line yields a user record exactly when it has at least four tokens |
| Lmstat.CountAfter | generate_license_html_comb.py:48-49 | a count is missing its "Total of" exactly when the line has too few of them, missing its token exactly when only whitespace follows, read exactly when that first token is an integer, and then is its value |
| Lmstat.HeaderReadable | generate_license_html_comb.py:45-56 | a "Users of" line is read exactly when it has at least two "Total of" and the first token after each of them is an integer |
| Lmstat.Classify | generate_license_html_comb.py:41-45 | a line is blank exactly when it is all whitespace, noise exactly when it is not blank and holds a keyword, a header only when its stripped text starts with "Users of", and a line holding a keyword is never a header |
| Lmstat.Step | generate_license_html_comb.py:41-66 | one iteration on a line that is not a header leaves the finished blocks unchanged |
| LmstatErrors.RunNeverMissesName | generate_license_html_comb.py:40-68 | the loop over any lines, from any state, never stops for want of a name |
| LmstatErrors.ReportNeverMissesName | generate_license_html_comb.py:35-73 | `parse_log` never raises for want of a name |
| Lmstat.ParseLog | generate_license_html_comb.py:35-73 | the loop returns exactly the fold of one step per line over the stripped report cut at newlines, or the first header error |
| LmstatRuns.RunFromAppend | generate_license_html_comb.py:40-68 | running over two runs of lines is running over the first, then from the state reached over the second; an error stops the run |
| LmstatBlocks.StepKeepsHeaders | generate_license_html_comb.py:41-66 | one line adds one block with its own header fields when it is a header, and otherwise changes only the users of the open block |
| LmstatBlocks.BlocksFollowHeaders | generate_license_html_comb.py:45-71 | on success, the blocks without their users are the earlier blocks followed by the header blocks of the lines, in line order, one per header line |
| LmstatBlocks.ReportBlocksFollowHeaders | generate_license_html_comb.py:45-71 | on success there is one block per header line, in header order, with that line's name and counts; repeated names are not merged |
| LmstatRuns.StepFailsOnlyOnBadHeader | generate_license_html_comb.py:45-50 | a line makes the parse fail exactly when it is a header whose counts or name cannot be read, with that header's error, and that error is never a missing name |
| LmstatErrors.FirstBadHeaderAborts | generate_license_html_comb.py:48-50 | the parse fails with the error of the first unreadable header line, whatever follows it |
| LmstatErrors.NoBadHeaderSucceeds | generate_license_html_comb.py:40-73 | without an unreadable header line the parse succeeds |
| LmstatErrors.ParseFailsIffBadHeader | generate_license_html_comb.py:48-50 | the parse fails if and only if some header line cannot be read, and then with the first one's error; a bad count is never read as 0 |
| LmstatBlocks.NoiseLineIrrelevant | generate_license_html_comb.py:41-59 | inserting a blank, noise, or short non-header line anywhere leaves the outcome unchanged |
| LmstatBlocks.NoOpenBlockDropsLines | generate_license_html_comb.py:57 | with no block open, non-header lines leave the state unchanged |
| LmstatBlocks.PreambleDropped | generate_license_html_comb.py:37-57 | lines before the first header do not affect the outcome |
| LmstatBlocks.OpenBlockCollectsDetails | generate_license_html_comb.py:57-66 | with a block open and no header among the lines, the finished blocks stay as they are and only the open block gains the users of the detail lines, in order |
| LmstatBlocks.HeaderCollectsFollowingDetails | generate_license_html_comb.py:45-66 | a header closes the open block and opens a block with its own fields, whose users are those of the detail lines up to the next header |
| LmstatBlocks.NoiseHasNoUsers | generate_license_html_comb.py:57-59 | blank, noise, and short lines hold no user records and no header |
| LmstatBlocks.HeaderWithoutDetailsIsEmpty | generate_license_html_comb.py:51-71 | a header followed only by noise yields a block with no users, and that block is emitted at the end of the input |
| LmstatBlocks.IgnoredHeaderOpensNoBlock | generate_license_html_comb.py:41-45 | a line containing a noise keyword is not a header, even when it starts with "Users of", and changes nothing |
| LmstatFields.HeaderFields | generate_license_html_comb.py:48-50 | on success the line cut at each "Total of" has at least three pieces and is those pieces rejoined; issued is the value of the first token of the 2nd piece (between the 1st and 2nd "Total of"), in use that of the 3rd piece, and the name is the 3rd token without trailing colons |
| Lmstat.HeaderHasThreeTokens | generate_license_html_comb.py:45-50 | a line starting with "Users of" that contains "Total of" has at least three tokens |
| Lmstat.HeaderNameAlwaysPresent | generate_license_html_comb.py:48-50 | a line starting with "Users of" never fails for want of a 3rd token |
| LmstatFields.UserFields | generate_license_html_comb.py:58-64 | user and station are the 1st and 2nd tokens, the details are the 4th token onwards joined by single spaces plus one trailing space exactly when the line has four tokens, and they split back into the 4th token onwards |
| LmstatFields.DetailsOfTokens | generate_license_html_comb.py:64 | the details built from the 4th token onwards are those tokens joined by single spaces, plus a space when there are exactly four tokens; they split back into those tokens |
| PyText.Strip | generate_license_html_comb.py:41 | `strip()` is empty exactly on all-whitespace text, and is otherwise the text between whitespace-only ends, with non-whitespace first and last characters |
| PyText.SplitWs | generate_license_html_comb.py:58 | every piece of `split()` is a non-empty run of non-whitespace |
| PyText.SplitWsEmptyIffAllWs | generate_license_html_comb.py:58 | `split()` gives no piece exactly when the text is empty or all whitespace |
| PyText.SplitWsAtWs | generate_license_html_comb.py:58 | `split()` of a text cut at a whitespace character is the `split()` of the two sides, concatenated |
| PyText.SplitWsJoin | generate_license_html_comb.py:64 | `split()` undoes `' '.join` of tokens |
| PyText.Contains | generate_license_html_comb.py:33 | `sub in s` holds exactly when `sub` occurs at some position of `s` |
| PyText.Find | generate_license_html_comb.py:48 | the first occurrence at or after a position, or none |
| PyText.SplitOn | generate_license_html_comb.py:48-49 | `split(sep)` has at least one piece, joins back to the text, and no piece contains the separator |
| PyText.Join | generate_license_html_comb.py:64 | `sep.join(parts)` of at least one part starts with the first part |
| PyText.JoinEndsWithLast | generate_license_html_comb.py:64 | `sep.join(parts)` of at least one part ends with the last part |
| PyText.StartsWithChars | generate_license_html_comb.py:45 | `s.startswith(prefix)` holds exactly when `prefix` is no longer than `s` and matches its first characters one by one |
| PyText.JoinFirstThree | generate_license_html_comb.py:48-49 | a text split on a separator into three or more pieces is the first three pieces with the separator between them, then the rest |
| PyText.RStripColons | generate_license_html_comb.py:50 | `rstrip(':')` is the longest prefix not ending in ':', and everything after it is ':' |
| PyText.ParseInt | generate_license_html_comb.py:48-49 | `int()` reads a token exactly when it is ASCII digits with an optional sign, and reads a negative value only after '-' |
| PyText.ParseShowInt | generate_license_html_comb.py:48-49 | `int()` reads back every integer's decimal rendering |
| Report.BlockRows | generate_license_html_comb.py:81-82 | a block yields one row per user, in user order, each carrying the block's name and counts |
| Report.Rows | generate_license_html_comb.py:75-85 | the table has as many rows as there are users, and every row's free count is its issued count minus its in-use count, negative when more are in use than issued |
| Report.CreateDataframe | generate_license_html_comb.py:75-85 | the nested loop returns exactly the rows of each block, block after block |
| Report.RowsAppend | generate_license_html_comb.py:77-82 | the table of two runs of blocks is the two tables one after the other |
| Report.RowOfUser | generate_license_html_comb.py:77-82 | user k of block i is the row at the number of users before block i, plus k |
| Report.UserlessBlocksAddNoRows | generate_license_html_comb.py:81-82 | blocks without users add no rows |
| Report.RowOf | generate_license_html_comb.py:80-82 | a row carries the block's name and counts and the user's user, station and details, and its free count is issued minus in use, negative exactly when more are in use than issued |
| Config.Fields | generate_license_html_comb.py:105 | the fields of a kept line join back by commas to the stripped line, and none contains a comma |
| Config.IsSkipped | generate_license_html_comb.py:103 | a line is skipped exactly when its very first character is '#' or it is all whitespace |
| Config.Licenses | generate_license_html_comb.py:101-107 | the result has one entry per kept line, each with at least one field, and no field holds a comma |
| Config.Kept | generate_license_html_comb.py:102-104 | no line that `read_licenses` keeps is a comment or a blank line |
| Config.ReadLicenses | generate_license_html_comb.py:101-107 | the loop returns exactly the fields of each kept line, in file order |
| Config.LicensesAreFieldsOfKept | generate_license_html_comb.py:102-105 | entry k of the result is the fields of the k-th kept line, and there is one entry per kept line |
| Config.KeptAppend | generate_license_html_comb.py:102-105 | filtering keeps file order |
| Config.KeptIffNotSkipped | generate_license_html_comb.py:103 | a line is kept if and only if it is a line of the file that neither starts with '#' nor is all whitespace |
| Config.IndentedCommentKept | generate_license_html_comb.py:103-105 | a line with any amount of whitespace before its '#' is kept, and its first field starts with '#' |

## Left out

- `get_lmstat_output` (lines 10-26) is not modelled. It starts the external
  `lmutil` process, which is I/O, so the report text is a parameter of
  `ParseLog`.
  - It returns the decoded stdout when the exit status is 0.
  - It returns `None` on a non-zero exit or a missing executable.
  - Other launch errors and a decode error propagate.
- `style_dataframe`, `generate_html` and `create_index_html` (lines 87-270)
  are not modelled. They are HTML templating, pandas styling, the wall clock
  and file writes.
- `process_license_async`, `main_async` and the main loop (lines 272-293)
  are not modelled. They are concurrency and scheduling. In that code a
  parse error is not caught per target: it propagates through `gather` and
  `asyncio.run`.
- The file open of `read_licenses` is not modelled. `ReadLicenses` takes
  the lines the file would give, newlines included.
- The 3-field unpacking of each `read_licenses` entry (lines 260 and 273)
  is not modelled. It raises when a line has other than three fields.
- The pandas DataFrame is modelled as a sequence of `Row` values, with
  `COLUMNS` naming the columns.
- PyText.Strip and PyText.SplitWs recognise only ASCII whitespace (the ASCII
  part of `str.isspace()`). Python also treats the non-ASCII Unicode
  whitespace characters as whitespace.
- PyText.ParseInt accepts an optional sign followed by ASCII digits.
  Python's `int()` also accepts underscores between digits, non-ASCII
  decimal digits, and surrounding whitespace. Tokens from `split()` never
  carry whitespace. It also reads tokens of any length. CPython from
  3.10.7 on raises `ValueError` on a decimal string of more than 4300
  digits (the default `int_max_str_digits`). On such a header count the
  model returns a value where the interpreter raises.
- The `try`/`except IndexError` around the user record (lines 60-68) is not
  modelled as a separate path. With at least four tokens the indexing
  cannot fail.
- `if current_license:` is modelled as "a block is open". The block
  dictionary always has four keys, so it is never falsy.
