/**
 * Line classification: which lines the pass skips, which open a work and
 * which carry shares, and what each line contributes to the open totals.
 */
module Records {
  import opened Wrappers
  import opened PyText
  import opened Shares

  /** How the pass treats one line. */
  datatype Kind = Blank | Boundary | PublisherShare | WriterShare | Unrecognised

  /** `line[0:3]`: the record tag, shorter when the line is. */
  function Tag(line: string): (t: string)
    ensures |t| == Min(3, |line|)
    ensures t == line[..|t|]
  {
    Slice(line, 0, 3)
  }

  /**
   * Blank lines are skipped, then the tag decides. Skipping blank lines first
   * never hides a recognised tag: each of those starts with a letter.
   */
  function Classify(line: string): (k: Kind)
    ensures k == Blank <==> AllSpace(line)
    ensures k == Boundary <==> Tag(line) == "NWR" || Tag(line) == "REV"
    ensures k == PublisherShare <==> Tag(line) == "SPU"
    ensures k == WriterShare <==> Tag(line) == "SWR"
  {
    StripSpec(line);
    if Strip(line) == [] then Blank
    else
      var tag := Tag(line);
      if tag == "NWR" || tag == "REV" then Boundary
      else if tag == "SPU" then PublisherShare
      else if tag == "SWR" then WriterShare
      else Unrecognised
  }

  /**
   * What the pass needs to know of one line: its kind and what it adds to the
   * open totals (`None` when `int` raises on one of its share fields).
   */
  datatype LineInfo = LineInfo(kind: Kind, shares: Option<Totals>)

  /** Shares are read only from SPU and SWR lines, each at its own columns. */
  function LineShares(line: string): (r: Option<Totals>)
    ensures Classify(line) != PublisherShare && Classify(line) != WriterShare ==> r == Some(Zero)
  {
    match Classify(line)
    case PublisherShare => ExtractShares(line, SpuPrStart, SpuMrStart, SpuSrStart)
    case WriterShare => ExtractShares(line, SwrPrStart, SwrMrStart, SwrSrStart)
    case _ => Some(Zero)
  }

  function Read(line: string): LineInfo {
    LineInfo(Classify(line), LineShares(line))
  }

  /** The lines as the pass sees them, one reading per line. */
  function ReadAll(lines: seq<string>): (r: seq<LineInfo>)
    ensures |r| == |lines|
  {
    if lines == [] then [] else [Read(lines[0])] + ReadAll(lines[1..])
  }

  lemma {:induction false} ReadAllAt(lines: seq<string>, i: nat)
    requires i < |lines|
    ensures ReadAll(lines)[i] == Read(lines[i])
    decreases i
  {
    if i > 0 {
      ReadAllAt(lines[1..], i - 1);
    }
  }

  /** The four record tags the pass acts on. */
  predicate KnownTag(tag: string) {
    tag == "NWR" || tag == "REV" || tag == "SPU" || tag == "SWR"
  }

  /** The reading of a line, case by case, in the order the loop tests them. */
  lemma ReadCases(line: string)
    ensures Strip(line) == [] ==> Read(line) == LineInfo(Blank, Some(Zero))
    ensures Strip(line) != [] && (Slice(line, 0, 3) == "NWR" || Slice(line, 0, 3) == "REV") ==>
      Read(line) == LineInfo(Boundary, Some(Zero))
    ensures Strip(line) != [] && Slice(line, 0, 3) == "SPU" ==>
      Read(line) == LineInfo(PublisherShare, ExtractShares(line, SpuPrStart, SpuMrStart, SpuSrStart))
    ensures Strip(line) != [] && Slice(line, 0, 3) == "SWR" ==>
      Read(line) == LineInfo(WriterShare, ExtractShares(line, SwrPrStart, SwrMrStart, SwrSrStart))
    ensures Strip(line) != [] && !KnownTag(Slice(line, 0, 3)) ==>
      Read(line) == LineInfo(Unrecognised, Some(Zero))
  {
  }

  lemma ReadSpu(line: string)
    requires Strip(line) != [] && Slice(line, 0, 3) == "SPU"
    ensures Read(line) == LineInfo(PublisherShare, ExtractShares(line, SpuPrStart, SpuMrStart, SpuSrStart))
  {
  }

  lemma ReadSwr(line: string)
    requires Strip(line) != [] && Slice(line, 0, 3) == "SWR"
    ensures Read(line) == LineInfo(WriterShare, ExtractShares(line, SwrPrStart, SwrMrStart, SwrSrStart))
  {
  }

  /** Blank lines and lines with an unknown tag. */
  predicate Ignored(info: LineInfo) {
    info.kind == Blank || info.kind == Unrecognised
  }

  /** SPU and SWR lines. */
  predicate IsShare(info: LineInfo) {
    info.kind == PublisherShare || info.kind == WriterShare
  }

  /** The line does not make `int` raise. */
  predicate Parses(info: LineInfo) {
    IsShare(info) ==> info.shares.Some?
  }

  /** An SPU line reads its PR, MR and SR shares from columns [115,120), [123,128) and [131,136). */
  lemma SpuShareColumns(line: string, pr: nat, mr: nat, sr: nat)
    requires pr < 100000 && mr < 100000 && sr < 100000
    requires |line| >= 136 && line[..3] == "SPU"
    requires line[115..120] == PadDigits(pr, 5)
    requires line[123..128] == PadDigits(mr, 5)
    requires line[131..136] == PadDigits(sr, 5)
    ensures Read(line) == LineInfo(PublisherShare, Some(Totals(pr, mr, sr)))
  {
    assert Tag(line) == "SPU";
    PaddedFieldValue(line, SpuPrStart, pr);
    PaddedFieldValue(line, SpuMrStart, mr);
    PaddedFieldValue(line, SpuSrStart, sr);
  }

  /** An SWR line reads its PR, MR and SR shares from columns [129,134), [137,142) and [145,150). */
  lemma SwrShareColumns(line: string, pr: nat, mr: nat, sr: nat)
    requires pr < 100000 && mr < 100000 && sr < 100000
    requires |line| >= 150 && line[..3] == "SWR"
    requires line[129..134] == PadDigits(pr, 5)
    requires line[137..142] == PadDigits(mr, 5)
    requires line[145..150] == PadDigits(sr, 5)
    ensures Read(line) == LineInfo(WriterShare, Some(Totals(pr, mr, sr)))
  {
    assert Tag(line) == "SWR";
    PaddedFieldValue(line, SwrPrStart, pr);
    PaddedFieldValue(line, SwrMrStart, mr);
    PaddedFieldValue(line, SwrSrStart, sr);
  }

  /** A share line too short to reach its share columns adds nothing and never raises. */
  lemma ShortShareLineAddsNothing(line: string)
    requires (Classify(line) == PublisherShare && |line| <= SpuPrStart)
      || (Classify(line) == WriterShare && |line| <= SwrPrStart)
    ensures Read(line).shares == Some(Zero)
  {
    if Classify(line) == PublisherShare {
      ShortLineSharesZero(line, SpuPrStart, SpuMrStart, SpuSrStart);
    } else {
      ShortLineSharesZero(line, SwrPrStart, SwrMrStart, SwrSrStart);
    }
  }
}
