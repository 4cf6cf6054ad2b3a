/**
 * `_validate_share_totals`: one error per category whose total is not
 * exactly 10000 (100 % in units of 0.01 %), in the order PR, MR, SR.
 *
 * The pass is reasoned about over structured errors (`ShareError`); `Message`
 * renders one as the text the validator appends.
 */
module ShareTotals {
  import opened PyText
  import opened Shares

  datatype Category = PR | MR | SR

  function Name(c: Category): string {
    match c
    case PR => "PR"
    case MR => "MR"
    case SR => "SR"
  }

  /** Position in the order the categories are checked in. */
  function Rank(c: Category): nat {
    match c
    case PR => 0
    case MR => 1
    case SR => 2
  }

  function Total(t: Totals, c: Category): nat {
    match c
    case PR => t.pr
    case MR => t.mr
    case SR => t.sr
  }

  /** Every category must add up to exactly 100 %, i.e. 10000 units of 0.01 %. */
  const ShareTarget: nat := 10000

  predicate Balanced(t: Totals) {
    t.pr == ShareTarget && t.mr == ShareTarget && t.sr == ShareTarget
  }

  /** One share-total error: the work (by the line number of its NWR/REV), the category and its total. */
  datatype ShareError = ShareError(workLine: nat, category: Category, total: nat)

  /**
   * The errors for one work: exactly one per category whose total is not
   * 10000, carrying that total, in the order PR, MR, SR.
   */
  function ShareErrors(workLine: nat, t: Totals): (r: seq<ShareError>)
    ensures |r| <= 3
    ensures r == [] <==> Balanced(t)
    ensures forall c :: ShareError(workLine, c, Total(t, c)) in r <==> Total(t, c) != ShareTarget
    ensures forall k :: 0 <= k < |r| ==>
      r[k].workLine == workLine && r[k].total == Total(t, r[k].category) && r[k].total != ShareTarget
    ensures forall i, j :: 0 <= i < j < |r| ==> Rank(r[i].category) < Rank(r[j].category)
  {
    (if t.pr != ShareTarget then [ShareError(workLine, PR, t.pr)] else [])
    + (if t.mr != ShareTarget then [ShareError(workLine, MR, t.mr)] else [])
    + (if t.sr != ShareTarget then [ShareError(workLine, SR, t.sr)] else [])
  }

  /** `f"Line {n}"`: the label a work gets from its NWR/REV line. */
  function WorkLabel(n: nat): string {
    "Line " + NatToString(n)
  }

  /** `f"{work_id}: PR total {pr} != 10000"` and its MR and SR twins. */
  function TotalMessage(workId: string, c: Category, total: nat): string {
    workId + ": " + Name(c) + " total " + NatToString(total) + " != 10000"
  }

  /** What `_validate_share_totals` appends, given the work's label and totals. */
  function TotalsErrors(workId: string, t: Totals): (r: seq<string>)
    ensures |r| <= 3
    ensures r == [] <==> Balanced(t)
  {
    (if t.pr != ShareTarget then [TotalMessage(workId, PR, t.pr)] else [])
    + (if t.mr != ShareTarget then [TotalMessage(workId, MR, t.mr)] else [])
    + (if t.sr != ShareTarget then [TotalMessage(workId, SR, t.sr)] else [])
  }

  function Message(e: ShareError): string {
    TotalMessage(WorkLabel(e.workLine), e.category, e.total)
  }

  function Messages(es: seq<ShareError>): (r: seq<string>)
    ensures |r| == |es|
  {
    if es == [] then [] else [Message(es[0])] + Messages(es[1..])
  }

  lemma {:induction false} MessagesAppend(a: seq<ShareError>, b: seq<ShareError>)
    ensures Messages(a + b) == Messages(a) + Messages(b)
  {
    if a == [] {
      assert a + b == b;
    } else {
      assert (a + b)[0] == a[0] && (a + b)[1..] == a[1..] + b;
      MessagesAppend(a[1..], b);
    }
  }

  /** One category's part of the errors, rendered. */
  lemma RenderedPart(n: nat, c: Category, total: nat)
    ensures Messages(if total != ShareTarget then [ShareError(n, c, total)] else [])
      == if total != ShareTarget then [TotalMessage(WorkLabel(n), c, total)] else []
  {
    if total != ShareTarget {
      var e := ShareError(n, c, total);
      assert [e][1..] == [];
      assert Messages([e]) == [Message(e)] + Messages([]);
    }
  }

  /** The text appended for a work labelled `Line n` is the rendering of its structured errors. */
  lemma TotalsErrorsRendered(n: nat, t: Totals)
    ensures TotalsErrors(WorkLabel(n), t) == Messages(ShareErrors(n, t))
  {
    var p := if t.pr != ShareTarget then [ShareError(n, PR, t.pr)] else [];
    var m := if t.mr != ShareTarget then [ShareError(n, MR, t.mr)] else [];
    var s := if t.sr != ShareTarget then [ShareError(n, SR, t.sr)] else [];
    assert ShareErrors(n, t) == p + m + s;
    MessagesAppend(p + m, s);
    MessagesAppend(p, m);
    RenderedPart(n, PR, t.pr);
    RenderedPart(n, MR, t.mr);
    RenderedPart(n, SR, t.sr);
  }

  /** Index of the first non-digit character, `|s|` if there is none. */
  function FirstNonDigit(s: string): (k: nat)
    ensures k <= |s|
  {
    if s == [] || !IsDigit(s[0]) then 0 else 1 + FirstNonDigit(s[1..])
  }

  lemma {:induction false} FirstNonDigitAfterDigits(x: string, u: string)
    requires AllDigits(x) && u != [] && !IsDigit(u[0])
    ensures FirstNonDigit(x + u) == |x|
  {
    if x != [] {
      assert (x + u)[0] == x[0] && (x + u)[1..] == x[1..] + u;
      FirstNonDigitAfterDigits(x[1..], u);
    } else {
      assert x + u == u;
    }
  }

  /** A decimal rendering is all digits, so it ends where the first non-digit is. */
  lemma DigitsThenRest(x: string, y: string, u: string, v: string)
    requires AllDigits(x) && AllDigits(y)
    requires u != [] && v != [] && !IsDigit(u[0]) && !IsDigit(v[0])
    requires x + u == y + v
    ensures x == y && u == v
  {
    FirstNonDigitAfterDigits(x, u);
    FirstNonDigitAfterDigits(y, v);
    assert x == (x + u)[..|x|] && y == (y + v)[..|y|];
    assert u == (x + u)[|x|..] && v == (y + v)[|y|..];
  }

  /** The tail of an error text after the work label. */
  function AfterLabel(c: Category, y: string): string {
    ": " + Name(c) + " total " + y + " != 10000"
  }

  lemma SplitAtLabel(x: string, c: Category, y: string)
    ensures "Line " + x + ": " + Name(c) + " total " + y + " != 10000" == "Line " + (x + AfterLabel(c, y))
  {
  }

  lemma SplitAtTotal(c: Category, y: string)
    ensures AfterLabel(c, y) == ": " + Name(c) + " total " + (y + " != 10000")
  {
  }

  /** The parts of an error text can be read back from it. */
  lemma MessageParts(x1: string, x2: string, c1: Category, c2: Category, y1: string, y2: string)
    requires AllDigits(x1) && AllDigits(x2) && AllDigits(y1) && AllDigits(y2)
    requires "Line " + x1 + ": " + Name(c1) + " total " + y1 + " != 10000"
          == "Line " + x2 + ": " + Name(c2) + " total " + y2 + " != 10000"
    ensures x1 == x2 && c1 == c2 && y1 == y2
  {
    var r1, r2 := AfterLabel(c1, y1), AfterLabel(c2, y2);
    SplitAtLabel(x1, c1, y1);
    SplitAtLabel(x2, c2, y2);
    var m1, m2 := "Line " + (x1 + r1), "Line " + (x2 + r2);
    assert m1 == m2;
    assert m1[5..] == x1 + r1 && m2[5..] == x2 + r2;
    DigitsThenRest(x1, x2, r1, r2);
    SplitAtTotal(c1, y1);
    SplitAtTotal(c2, y2);
    assert r1[2] == Name(c1)[0] && r2[2] == Name(c2)[0];
    assert c1 == c2;
    var head := ": " + Name(c1) + " total ";
    assert r1[|head|..] == y1 + " != 10000" && r2[|head|..] == y2 + " != 10000";
    DigitsThenRest(y1, y2, " != 10000", " != 10000");
  }

  /** Different errors never read the same: the text determines work, category and total. */
  lemma MessageInjective(d1: ShareError, d2: ShareError)
    requires Message(d1) == Message(d2)
    ensures d1 == d2
  {
    MessageParts(NatToString(d1.workLine), NatToString(d2.workLine), d1.category, d2.category,
                 NatToString(d1.total), NatToString(d2.total));
    NatToStringInjective(d1.workLine, d2.workLine);
    NatToStringInjective(d1.total, d2.total);
  }
}
