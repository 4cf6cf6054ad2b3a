# ICE validator: work-scoped share totals

This project models the checking core of the Independent Validator. The
validator checks CWR royalty-registration files, which are fixed-width text
with one record per line, before they are sent to ICE.

The core is the class `ICE_Validator` in `validator.py`. It keeps the lines of
a file and a list of error messages, and makes one pass over the lines:

- Blank lines are skipped.
- A line's record type is its first three characters.
- An `NWR` or `REV` line starts a new work. Before that, it validates the work
  that was open, if there was one.
- An `SPU` (publisher share) line or an `SWR` (writer share) line adds three
  five-character share fields to the running totals:
  - PR, the performing-rights share;
  - MR, the mechanical-rights share;
  - SR, the synchronisation-rights share.
  The fields are read at fixed columns.
- A work is valid when each of its three totals is exactly 10000 (100.00 %).
  Each category that is not gets one message, `Line n: PR total t != 10000`,
  where `n` is the number of the line that opened the work.
- At the end of the file, the work still open is validated.
- `run()` returns whether the error list is empty.

The model has two layers.

- **Pure pass (module `Accumulator`).** A line is read as a `LineInfo` (its
  kind and the shares it adds, if any). The pass is a state machine:
  - `Step` handles one line.
  - `RunFrom` runs over a sequence of lines.
  - `Close` validates the open work at the end.
  - `Pass` and `Check` run the whole file.

  Errors are kept as structured `ShareError` values: the line of the work, the
  category and the total. They are rendered to the source's text by `Message`.
  The properties of a whole pass are proved here. They are stated against an
  independent reference definition, the list of a file's `Works`: each
  `NWR`/`REV` line together with the lines up to the next one.
- **Object (module `Validator`).** The class `IceValidator` holds `lines` and a
  mutable `errors` field. Its methods are proved against the pure pass:
  - `CheckRecordsAndMath` is a `while` loop over the lines, with an invariant.
    The invariant relates the loop's variables plus the ghost state to the rest
    of the pass.
  - `VisitLine` is the loop body for one line.
  - `ValidateShareTotals` appends the messages for one work.
  - `Run` is the whole check.

The model reads a share field, once stripped, as a number only when it is
empty (0) or a string of ASCII decimal digits. Any other field is read as the
`ValueError` Python's `int` raises; Python's `int` itself accepts a few more
forms (see "## Left out"). The exception leaves `run()`, and the messages
already appended stay in `errors`. The model represents this as:

- the outcome `Raised(errors, line)` of the pass;
- a `RaisedValueError(line)` result of `Run`.

Some behaviour a reader might expect of a CWR validator is not what the code
does; the model follows the code:

- **Non-numeric share fields.** A more lenient validator would report such a
  field and count it as 0. The code raises `ValueError`, and so does the model.
- **Share lines before the first `NWR`/`REV`.** The code adds them to totals
  that the first `NWR`/`REV` resets without checking. As long as every share
  field on them parses, this is the same as discarding them:
  `PreambleSharesDiscarded` proves the outcome does not depend on their share
  values. Their fields are still extracted, so a field `int` rejects raises
  `ValueError` there as anywhere else (`RaisedAtFirstFailure`).
- **Checks the code does not make:**
  - a limit of 10000 on a single share field;
  - record-type tags in the work labels (a label is only `Line n`);
  - header, filename and per-field format checks;
  - warnings.

  None of these is part of the model.

Files:

| file | contents |
|---|---|
| `wrappers.dfy` | `Option` |
| `pytext.dfy` | `str.isspace` and `str.strip`; clamped slicing; decimal digit strings; `str(n)` |
| `shares.dfy` | share fields and their columns; `_extract_shares` |
| `records.dfy` | reading a line: blank lines, record tags, which columns carry shares |
| `totals.dfy` | the 10000 target; the structured errors and their message text |
| `accumulator.dfy` | the pure pass and its properties |
| `validator.dfy` | the class `IceValidator` and its loop |

## Model

| member | source | states |
|---|---|---|
| Validator.IceValidator.constructor | validator.py:4-8 | The object holds the given lines and starts with an empty error list. |
| Validator.IceValidator.Run | validator.py:10-12 | `run()` appends exactly the rendered errors of the pass. It raises at the line where the pass raises. Otherwise it returns whether the error list is empty. On a fresh object it passes exactly when the pass found no error. |
| Validator.IceValidator.CheckRecordsAndMath | validator.py:14-38 | The loop appends exactly `Messages(Check(lines).errors)` to `errors`, after the messages already there. It reports `Some(n)` exactly when the pass raises, with `n` the line where it raises; messages appended before that line stay. |
| Validator.IceValidator.VisitLine | validator.py:19-36 | One iteration of the loop performs one `Step` of the pass on the line. Afterwards, `current_work` is `"Line n"` exactly for the work opened at line `n`, and the error list is the rendering of the structured errors so far. When `int` raises, it reports the failure with the error list unchanged. |
| Validator.IceValidator.ValidateShareTotals | validator.py:47-50 | Appends one message per category whose total is not 10000, in the order PR, MR, SR. |
| Validator.SkipStep | validator.py:20-21 | A blank line, or a line whose tag is none of NWR, REV, SPU and SWR, leaves the pass's state unchanged. |
| Validator.BoundaryStep | validator.py:24-26 | An NWR/REV line appends the open work's errors and opens a work at its own line number with all totals 0. |
| Validator.SpuStep | validator.py:28-31 | An SPU line adds the shares at columns 115, 123 and 131 to the open totals, leaving the open work and the errors as they were. |
| Validator.SwrStep | validator.py:33-36 | An SWR line adds the shares at columns 129, 137 and 145 to the open totals, leaving the open work and the errors as they were. |
| Validator.RaiseStep | validator.py:28-36 | An SPU/SWR line with a field `int` rejects stops the pass at that line, keeping the errors so far. |
| Validator.Finalized | validator.py:25 | Validating the open work appends exactly the rendering of its structured errors. |
| Validator.RunAtIsRunFrom | validator.py:18-19 | Stepping by index from line `i`, as `enumerate` does, is the pass over the lines from `i` on, numbered from `i + 1`. |
| Accumulator.RunFromFailed | validator.py:18-36 | Once `ValueError` is raised, no later line changes anything. |
| Accumulator.IgnoredLineNoEffect | validator.py:20-36 | Blank lines and lines with an unknown tag change neither the totals nor the errors. |
| Accumulator.TrailingIgnoredLinesInvisible | validator.py:18-38 | Appending blank or unknown-tag lines to a file does not change the outcome of the pass. |
| Accumulator.ErrorsAppendOnly | validator.py:18-38 | The errors found in the first `i` lines stay, unchanged and in front, in the final error list. |
| Accumulator.ErrorBound | validator.py:24-38 | A pass records at most three errors per NWR/REV line. |
| Accumulator.NoBoundaryNoErrors | validator.py:24-38 | A file without NWR/REV lines gets no share errors, whatever its share lines hold. |
| Accumulator.StepFails | validator.py:28-36 | A step fails exactly when the line is a share line whose fields do not all parse, and it then stops at that line, keeping the errors so far. |
| Accumulator.RaisedAtFirstFailure | validator.py:28-45 | The pass raises exactly when some line has a share field that `int` rejects, and it raises at the first such line. |
| Accumulator.RaisedKeepsEarlierErrors | validator.py:18-38 | When the pass raises at line `m`, the errors left in place are exactly those the lines before `m` produced: the works validated before the exception. |
| Accumulator.PreambleSharesDiscarded | validator.py:15-31 | Take the share lines before the first NWR/REV, and replace them with any other lines of the same count that also have no NWR/REV and no bad field. The outcome of the pass does not change. |
| Accumulator.StepBoundary | validator.py:24-26 | On an NWR/REV line, the open work's errors are appended and a new work opens with zero totals. |
| Accumulator.StepAdds | validator.py:28-36 | A line that is not NWR/REV and parses adds its shares to the open totals. |
| Accumulator.SegmentRun | validator.py:28-36 | A run of lines without NWR/REV adds the sum of their shares to the open totals. |
| Accumulator.PassMatchesWorks | validator.py:14-38 | A pass that does not raise records the errors of each work (an NWR/REV line and the lines up to the next one), in file order. |
| Accumulator.NoErrorsIffAllBalanced | validator.py:14-50 | A pass that does not raise records no errors exactly when every work's three totals are each 10000. |
| Accumulator.WorksCount | validator.py:24-26 | There is exactly one work per NWR/REV line. |
| Accumulator.PassAppend | validator.py:18-38 | A pass over two parts of a file is the pass over the second part, started from the state the first part leaves. |
| Records.Tag | validator.py:21 | `line[0:3]` is the first `min(3, len(line))` characters of the line. |
| Records.Classify | validator.py:20-36 | A line is blank exactly when it is all whitespace. It is a boundary exactly when its tag is NWR or REV, and a publisher or writer share line exactly when its tag is SPU or SWR. |
| Records.LineShares | validator.py:24-36 | Only SPU and SWR lines carry shares. Every other line adds zero. |
| Records.ReadCases | validator.py:20-36 | The reading of a line, case by case, in the order the loop tests them. |
| Records.ReadSpu | validator.py:28-30 | An SPU line is read with the fields at columns 115, 123 and 131. |
| Records.ReadSwr | validator.py:33-35 | An SWR line is read with the fields at columns 129, 137 and 145. |
| Records.SpuShareColumns | validator.py:28-30 | An SPU line with zero-padded shares in columns [115,120), [123,128) and [131,136) reads exactly those three numbers. |
| Records.SwrShareColumns | validator.py:33-35 | An SWR line with zero-padded shares in columns [129,134), [137,142) and [145,150) reads exactly those three numbers. |
| Records.ShortShareLineAddsNothing | validator.py:40-45 | A share line that ends before its share columns (column 115 for SPU, column 129 for SWR) adds zero and never raises. |
| Records.ReadAll | validator.py:18 | One reading per line. |
| Records.ReadAllAt | validator.py:18-19 | The reading at index `i` is the reading of line `i + 1`. |
| Shares.Field | validator.py:42-44 | A share field has at most five characters, and is empty when the line ends before it. |
| Shares.ParseShareSpec | validator.py:42-44 | A field parses exactly when, once stripped, it is a string of digits. A blank field reads as 0. No value needs more digits than the field has. |
| Shares.FieldShareSpec | validator.py:42-44 | A share read from a field is below 100000. A field past the end of the line reads as 0. |
| Shares.ExtractSharesSpec | validator.py:40-45 | Extraction succeeds exactly when each of the three stripped fields is a string of digits. Every share is then below 100000, and three blank fields give zero shares. |
| Shares.ShortLineSharesZero | validator.py:40-45 | A line too short to reach any of the three fields gives zero shares. |
| Shares.PaddedFieldValue | validator.py:41-44 | A five-digit zero-padded field reads as its number, which is the format shares are written in. |
| ShareTotals.ShareErrors | validator.py:47-50 | There is at most one error per category. There are none exactly when all three totals are 10000. Category `c` has an error exactly when its total is not 10000, and that error carries that total. The errors are in the order PR, MR, SR. |
| ShareTotals.TotalsErrors | validator.py:47-50 | At most three messages are appended, and none exactly when all three totals are 10000. |
| ShareTotals.TotalsErrorsRendered | validator.py:47-50 | The text appended for the work labelled `Line n` is the rendering of its structured errors. |
| ShareTotals.MessagesAppend | validator.py:47-50 | Rendering distributes over appending errors. |
| ShareTotals.MessageInjective | validator.py:48-50 | Two error texts are equal only for equal errors: the text determines the work's line, the category and the total. |
| Shares.ParseShare | validator.py:42-44 | Definition of `int(field.strip() or 0)`; its contract is `ParseShareSpec`. |
| Shares.ExtractShares | validator.py:40-45 | Definition of `_extract_shares`; its contract is `ExtractSharesSpec`, and `ShortLineSharesZero` and `PaddedFieldValue` add to it. |
| Records.Read | validator.py:20-36 | Definition of how the loop sees one line, as its kind and added shares; its contract is `ReadCases`, `ReadSpu` and `ReadSwr`. |
| Accumulator.Step | validator.py:19-36 | Definition of one iteration of the loop; its contract is `StepBoundary`, `StepAdds`, `StepFails` and `IgnoredLineNoEffect`. |
| Accumulator.Accumulate | validator.py:28-36 | Definition of `pr_total += pr; mr_total += mr; sr_total += sr`, or the raise; its contract is `StepAdds` and `StepFails`. |
| Accumulator.Finalize | validator.py:25 | Definition of `if current_work: self._validate_share_totals(...)` as structured errors; its contract is `Validator.Finalized`. |
| Accumulator.Close | validator.py:38 | Definition of the validation of the work still open after the loop, skipped when the pass raised. What it yields is stated by the lemmas on `Pass`, among them `PassMatchesWorks`, `ErrorBound` and `RaisedKeepsEarlierErrors`. |
| Accumulator.Pass | validator.py:14-38 | Definition of the whole pass over the lines as read; its contract is `PassMatchesWorks`, `RaisedAtFirstFailure`, `ErrorBound` and the other lemmas on `Pass`. |
| Accumulator.Check | validator.py:14-38 | Definition: `Check(lines)` is `Pass(ReadAll(lines))`, so the lemmas on `Pass` are its contract; `IceValidator.CheckRecordsAndMath` is proved equal to it. |
| ShareTotals.WorkLabel | validator.py:26 | Definition of `f"Line {line_num}"`; its contract is `NatToStringInjective` and `MessageInjective`. |
| ShareTotals.TotalMessage | validator.py:48-50 | Definition of `f"{work_id}: PR total {pr} != 10000"` and its MR and SR twins; its contract is `TotalsErrorsRendered` and `MessageInjective`. |
| PyText.Strip | validator.py:20 | `str.strip()`: its own contract places the result inside the string after the leading whitespace, and `StripSpec` gives the rest. |
| Accumulator.RunFrom | validator.py:18-36 | Definition of the `for idx, line in enumerate(self.lines)` loop over lines as read; its contract is `RunFromAppend`, `RunFromFailed`, `FailureFrom`, `ErrorsGrow` and the lemmas on `Pass`. |
| Validator.RunAt | validator.py:18-36 | Definition of the same loop stepped by index; its contract is `RunAtIsRunFrom`. |
| Shares.FieldShare | validator.py:42-44 | Definition of `int(line[s:s+5].strip() or 0)` for one field; its contract is `FieldShareSpec` and `PaddedFieldValue`. |
| PyText.IsSpace | validator.py:20 | Definition of the character set of `str.isspace`, which `strip` removes; it is used through `StripSpec` and `Classify`. |
| PyText.AllSpace | validator.py:20 | Definition of an all-whitespace string; `StripSpec` proves `strip()` is empty exactly for such a string, and `Classify` makes it the blank-line test. |
| PyText.DigitsValue | validator.py:42-44 | The value `int` gives a string of decimal digits; its own contract bounds it below `10^len`, and `NatToStringRoundTrip` and `PadDigitsValue` state it is the inverse of rendering. |
| PyText.NatToString | validator.py:26 | `str(n)` as used in `f"Line {line_num}"` and the totals in the messages: its own contract makes it a non-empty digit string without a leading zero, and `NatToStringRoundTrip` and `NatToStringInjective` relate it back to `n`. |
| PyText.StripSpec | validator.py:20 | `strip()` is empty exactly for an all-whitespace line. It drops only whitespace, and what it keeps starts and ends with a non-whitespace character. |
| PyText.Slice | validator.py:21 | Slicing clamps to the string: the length is `min(hi, len) - lo` when that is positive and 0 otherwise, and each character is the one at the same offset. |
| PyText.NatToStringRoundTrip | validator.py:26 | The decimal text `str(n)` that goes into `f"Line {n}"` reads back as `n`. |
| PyText.NatToStringInjective | validator.py:26 | Different line numbers give different work labels. |

## Left out

- The Streamlit user interface in `app.py` is not part of this model. That covers file upload, Latin-1 decoding of the file and the display of the result.
- `str.splitlines` is not modelled: the constructor takes the list of lines. `raw_content` and `filename` are stored by the source but never read by the core, so the object does not hold them.
- An exception escaping `run()` is modelled as a result value, not as control flow.
- Shares.ParseShare: does not follow every rule of Python's `int`. The model reads a stripped field only as a plain ASCII digit string, and treats anything else as `ValueError`. Python also accepts a leading `+` or `-`, underscores between digits and non-ASCII decimal digits. Shares written in the CWR format never contain these.
- Python's integers are unbounded, and so are the totals in the model. No width or wrap-around applies.
- `current_work` is modelled as an `Option` whose value is a line number, rendered by `WorkLabel`, so its truthiness test `if current_work:` becomes `Some?`. That is exact, because a label `"Line n"` is never empty.
