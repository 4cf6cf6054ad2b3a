/**
 * Share-field extraction (`_extract_shares`): three 5-character windows of a
 * fixed-width line, each trimmed and read as a non-negative integer, a blank
 * window reading as 0.
 */
module Shares {
  import opened Wrappers
  import opened PyText

  /** The running PR/MR/SR totals of a work, in units of 0.01 %. */
  datatype Totals = Totals(pr: nat, mr: nat, sr: nat)

  const Zero: Totals := Totals(0, 0, 0)

  function Add(a: Totals, b: Totals): Totals {
    Totals(a.pr + b.pr, a.mr + b.mr, a.sr + b.sr)
  }

  /** Width of every share field. */
  const ShareWidth: nat := 5

  /** 0-based start offsets of the PR, MR and SR shares on an SPU line. */
  const SpuPrStart: nat := 115
  const SpuMrStart: nat := 123
  const SpuSrStart: nat := 131

  /** 0-based start offsets of the PR, MR and SR shares on an SWR line. */
  const SwrPrStart: nat := 129
  const SwrMrStart: nat := 137
  const SwrSrStart: nat := 145

  /** `line[start:start+5]`, clamped to the line. */
  function Field(line: string, start: nat): (f: string)
    ensures |f| <= ShareWidth
    ensures |line| <= start ==> f == []
  {
    Slice(line, start, start + ShareWidth)
  }

  /**
   * `int(field.strip() or 0)`, with `int` read as a plain digit string:
   * `None` is the `ValueError` Python raises for anything else.
   */
  function ParseShare(field: string): Option<nat> {
    var t := Strip(field);
    if t == [] then Some(0)
    else if AllDigits(t) then Some(DigitsValue(t))
    else None
  }

  /**
   * A field parses exactly when, stripped, it is a digit string; a blank one
   * reads as 0; a value never needs more digits than the field has.
   */
  lemma ParseShareSpec(field: string)
    ensures ParseShare(field).Some? <==> AllDigits(Strip(field))
    ensures AllSpace(field) ==> ParseShare(field) == Some(0)
    ensures ParseShare(field).Some? ==> ParseShare(field).value < Pow10(|field|)
  {
    StripSpec(field);
    Pow10Monotone(|Strip(field)|, |field|);
  }

  /** What one 5-character share field contributes, `None` if it does not parse. */
  function FieldShare(line: string, start: nat): Option<nat> {
    ParseShare(Field(line, start))
  }

  /** A share read from a field is below 100000; a field past the end of the line reads as 0. */
  lemma FieldShareSpec(line: string, start: nat)
    ensures FieldShare(line, start).Some? ==> FieldShare(line, start).value < 100000
    ensures |line| <= start ==> FieldShare(line, start) == Some(0)
  {
    var f := Field(line, start);
    ParseShareSpec(f);
    Pow10Monotone(|f|, ShareWidth);
  }

  lemma {:induction false} Pow10Monotone(m: nat, n: nat)
    requires m <= n
    ensures Pow10(m) <= Pow10(n)
  {
    if m < n { Pow10Monotone(m, n - 1); }
  }

  /**
   * `_extract_shares(line, prStart, mrStart, srStart)`: the three shares, or
   * `None` when any field is neither blank nor a digit string.
   */
  function ExtractShares(line: string, prStart: nat, mrStart: nat, srStart: nat): Option<Totals> {
    var pr := FieldShare(line, prStart);
    var mr := FieldShare(line, mrStart);
    var sr := FieldShare(line, srStart);
    if pr.Some? && mr.Some? && sr.Some? then Some(Totals(pr.value, mr.value, sr.value)) else None
  }

  /**
   * Extraction succeeds exactly when each stripped field is a digit string;
   * every share is then below 100000; and three blank fields give zero shares.
   */
  lemma ExtractSharesSpec(line: string, prStart: nat, mrStart: nat, srStart: nat)
    ensures ExtractShares(line, prStart, mrStart, srStart).Some? <==>
      AllDigits(Strip(Field(line, prStart))) && AllDigits(Strip(Field(line, mrStart)))
      && AllDigits(Strip(Field(line, srStart)))
    ensures var r := ExtractShares(line, prStart, mrStart, srStart);
      r.Some? ==> r.value.pr < 100000 && r.value.mr < 100000 && r.value.sr < 100000
    ensures AllSpace(Field(line, prStart)) && AllSpace(Field(line, mrStart)) && AllSpace(Field(line, srStart))
      ==> ExtractShares(line, prStart, mrStart, srStart) == Some(Zero)
  {
    ParseShareSpec(Field(line, prStart));
    ParseShareSpec(Field(line, mrStart));
    ParseShareSpec(Field(line, srStart));
    FieldShareSpec(line, prStart);
    FieldShareSpec(line, mrStart);
    FieldShareSpec(line, srStart);
  }

  /** A line too short to reach the first share field contributes nothing and never fails. */
  lemma ShortLineSharesZero(line: string, prStart: nat, mrStart: nat, srStart: nat)
    requires |line| <= prStart && |line| <= mrStart && |line| <= srStart
    ensures ExtractShares(line, prStart, mrStart, srStart) == Some(Zero)
  {
  }

  /** A zero-padded five-digit field reads as its number: the format shares are written in. */
  lemma PaddedFieldValue(line: string, start: nat, n: nat)
    requires n < Pow10(ShareWidth) && |line| >= start + ShareWidth
    requires line[start..start + ShareWidth] == PadDigits(n, ShareWidth)
    ensures FieldShare(line, start) == Some(n)
  {
    var p := PadDigits(n, ShareWidth);
    PadDigitsValue(n, ShareWidth);
    assert Field(line, start) == p;
    assert LeadingSpaces(p) == 0;
    assert Strip(p) == p;
  }

  /** `n` written as exactly `w` decimal digits, with leading zeros. */
  function PadDigits(n: nat, w: nat): (s: string)
    ensures |s| == w && AllDigits(s)
  {
    if w == 0 then [] else PadDigits(n / 10, w - 1) + [DigitChar(n % 10)]
  }

  lemma {:induction false} PadDigitsValue(n: nat, w: nat)
    requires n < Pow10(w)
    ensures DigitsValue(PadDigits(n, w)) == n
  {
    if w > 0 {
      var s := PadDigits(n, w);
      assert s[..w - 1] == PadDigits(n / 10, w - 1);
      assert n / 10 < Pow10(w - 1);
      PadDigitsValue(n / 10, w - 1);
    }
  }
}
