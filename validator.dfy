/**
 * `ICE_Validator`: the object that holds the lines of one CWR file and the
 * error list, and the pass that fills that list.
 *
 * Each method is proved against the pure pass of module `Accumulator`: the
 * loop of `CheckRecordsAndMath` appends exactly the rendered errors of
 * `Check(lines)` and raises exactly where `Check(lines)` raises.
 */
module Validator {
  import opened Wrappers
  import opened PyText
  import opened Shares
  import opened Records
  import opened ShareTotals
  import opened Accumulator

  /** How `run()` ends: it returns whether the error list is empty, or `ValueError` escapes at a line. */
  datatype RunResult = Returned(passed: bool) | RaisedValueError(line: nat)

  /**
   * The rest of the pass from the line at index `i` on, stepping by index as
   * `enumerate` does; it is `RunFrom` on `infos[i..]` (`RunAtIsRunFrom`).
   */
  function RunAt(s: State, infos: seq<LineInfo>, i: nat): State
    decreases |infos| - i
  {
    if i >= |infos| then s else RunAt(Step(s, infos[i], i + 1), infos, i + 1)
  }

  lemma {:induction false} RunAtIsRunFrom(s: State, infos: seq<LineInfo>, i: nat)
    requires i <= |infos|
    ensures RunAt(s, infos, i) == RunFrom(s, infos[i..], i)
    decreases |infos| - i
  {
    if i < |infos| {
      StepAt(s, infos, i);
      RunAtIsRunFrom(Step(s, infos[i], i + 1), infos, i + 1);
    } else {
      assert infos[i..] == [];
    }
  }

  /* One line of the loop, stated on the step of the pass it performs. */

  lemma SkipStep(line: string, s: State, n: nat)
    requires Strip(line) == [] || !KnownTag(Slice(line, 0, 3))
    ensures Step(s, Read(line), n) == s
  {
    ReadCases(line);
    IgnoredLineNoEffect(s, Read(line), n);
  }

  lemma BoundaryStep(line: string, acc: Acc, e: seq<ShareError>, n: nat)
    requires Strip(line) != [] && (Slice(line, 0, 3) == "NWR" || Slice(line, 0, 3) == "REV")
    ensures Step(Running(acc, e), Read(line), n) == Running(Acc(Some(n), Zero), e + Finalize(acc))
  {
    ReadCases(line);
  }

  /** The shares the loop extracts from an SPU or SWR line. */
  predicate ExtractsAs(line: string, r: Option<Totals>) {
    (Slice(line, 0, 3) == "SPU" && ExtractShares(line, SpuPrStart, SpuMrStart, SpuSrStart) == r)
    || (Slice(line, 0, 3) == "SWR" && ExtractShares(line, SwrPrStart, SwrMrStart, SwrSrStart) == r)
  }

  lemma ShareStep(info: LineInfo, cur: Option<nat>, pr: nat, mr: nat, sr: nat, e: seq<ShareError>, n: nat, t: Totals)
    requires IsShare(info) && info.shares == Some(t)
    ensures Step(Running(Acc(cur, Totals(pr, mr, sr)), e), info, n)
      == Running(Acc(cur, Totals(pr + t.pr, mr + t.mr, sr + t.sr)), e)
  {
  }

  lemma SpuStep(line: string, cur: Option<nat>, pr: nat, mr: nat, sr: nat, e: seq<ShareError>, n: nat, t: Totals)
    requires Strip(line) != [] && Slice(line, 0, 3) == "SPU"
    requires ExtractShares(line, SpuPrStart, SpuMrStart, SpuSrStart) == Some(t)
    ensures Step(Running(Acc(cur, Totals(pr, mr, sr)), e), Read(line), n)
      == Running(Acc(cur, Totals(pr + t.pr, mr + t.mr, sr + t.sr)), e)
  {
    ReadSpu(line);
    ShareStep(Read(line), cur, pr, mr, sr, e, n, t);
  }

  lemma SwrStep(line: string, cur: Option<nat>, pr: nat, mr: nat, sr: nat, e: seq<ShareError>, n: nat, t: Totals)
    requires Strip(line) != [] && Slice(line, 0, 3) == "SWR"
    requires ExtractShares(line, SwrPrStart, SwrMrStart, SwrSrStart) == Some(t)
    ensures Step(Running(Acc(cur, Totals(pr, mr, sr)), e), Read(line), n)
      == Running(Acc(cur, Totals(pr + t.pr, mr + t.mr, sr + t.sr)), e)
  {
    ReadSwr(line);
    ShareStep(Read(line), cur, pr, mr, sr, e, n, t);
  }

  lemma RaiseStep(line: string, acc: Acc, e: seq<ShareError>, n: nat)
    requires Strip(line) != [] && ExtractsAs(line, None)
    ensures Step(Running(acc, e), Read(line), n) == Failed(e, n)
  {
    ReadCases(line);
  }

  /** The loop advances the pass by the line at index `i`. */
  lemma RunAtStep(lines: seq<string>, s: State, i: nat)
    requires i < |lines|
    ensures RunAt(s, ReadAll(lines), i) == RunAt(Step(s, Read(lines[i]), i + 1), ReadAll(lines), i + 1)
  {
    ReadAllAt(lines, i);
  }

  lemma RunAtFailed(e: seq<ShareError>, n: nat, infos: seq<LineInfo>, i: nat)
    requires i <= |infos|
    ensures RunAt(Failed(e, n), infos, i) == Failed(e, n)
  {
    RunAtIsRunFrom(Failed(e, n), infos, i);
    RunFromFailed(e, n, infos[i..], i);
  }

  /** Validating the open work appends the rendering of its structured errors. */
  lemma Finalized(base: seq<string>, emitted: seq<ShareError>, acc: Acc)
    requires acc.current.Some?
    ensures base + Messages(emitted) + TotalsErrors(WorkLabel(acc.current.value), acc.totals)
      == base + Messages(emitted + Finalize(acc))
  {
    var fin := Finalize(acc);
    assert fin == ShareErrors(acc.current.value, acc.totals);
    TotalsErrorsRendered(acc.current.value, acc.totals);
    MessagesAppend(emitted, fin);
    ConcatAssoc(base, Messages(emitted), Messages(fin));
  }

  lemma ConcatAssoc<T>(a: seq<T>, b: seq<T>, c: seq<T>)
    ensures a + b + c == a + (b + c)
  {
  }

  class IceValidator {
    /** The file's lines, as `str.splitlines` gives them. */
    const lines: seq<string>
    /** The error messages recorded so far, oldest first. */
    var errors: seq<string>

    constructor(lines: seq<string>)
      ensures this.lines == lines
      ensures errors == []
    {
      this.lines := lines;
      errors := [];
    }

    /** Appends one message per category whose total is not 10000, in the order PR, MR, SR. */
    method ValidateShareTotals(workId: string, pr: nat, mr: nat, sr: nat)
      modifies this`errors
      ensures errors == old(errors) + TotalsErrors(workId, Totals(pr, mr, sr))
    {
      if pr != ShareTarget {
        errors := errors + [TotalMessage(workId, PR, pr)];
      }
      if mr != ShareTarget {
        errors := errors + [TotalMessage(workId, MR, mr)];
      }
      if sr != ShareTarget {
        errors := errors + [TotalMessage(workId, SR, sr)];
      }
    }

    /**
     * The body of the loop for one line, whose 1-based number is `lineNum`,
     * given the loop's variables: it performs one `Step` of the pass. `failed`
     * is set when a share field is not an integer, where `int` raises.
     */
    method VisitLine(line: string, lineNum: nat, currentWork: Option<string>, ghost openLine: Option<nat>,
                     prTotal: nat, mrTotal: nat, srTotal: nat, ghost emitted: seq<ShareError>, ghost base: seq<string>)
      returns (work: Option<string>, ghost workLine: Option<nat>, pr: nat, mr: nat, sr: nat,
               ghost appended: seq<ShareError>, failed: bool)
      requires currentWork == if openLine.Some? then Some(WorkLabel(openLine.value)) else None
      requires errors == base + Messages(emitted)
      modifies this`errors
      ensures var s := Step(Running(Acc(openLine, Totals(prTotal, mrTotal, srTotal)), emitted), Read(line), lineNum);
        if failed then s == Failed(emitted, lineNum) && appended == emitted && errors == old(errors)
        else s == Running(Acc(workLine, Totals(pr, mr, sr)), appended)
      ensures !failed ==> work == if workLine.Some? then Some(WorkLabel(workLine.value)) else None
      ensures !failed ==> errors == base + Messages(appended)
    {
      work, workLine, pr, mr, sr, appended, failed := currentWork, openLine, prTotal, mrTotal, srTotal, emitted, false;
      ghost var acc := Acc(openLine, Totals(prTotal, mrTotal, srTotal));
      if Strip(line) == [] {
        SkipStep(line, Running(acc, emitted), lineNum);
        return;
      }
      var rectype := Slice(line, 0, 3);
      if rectype == "NWR" || rectype == "REV" {
        BoundaryStep(line, acc, emitted, lineNum);
        ghost var fin := Finalize(acc);
        if currentWork.Some? {
          ValidateShareTotals(currentWork.value, prTotal, mrTotal, srTotal);
          Finalized(base, emitted, acc);
        } else {
          assert emitted + fin == emitted;
        }
        appended := emitted + fin;
        work := Some(WorkLabel(lineNum));
        workLine := Some(lineNum);
        pr, mr, sr := 0, 0, 0;
      } else if rectype == "SPU" {
        var shares := ExtractShares(line, SpuPrStart, SpuMrStart, SpuSrStart);
        if shares.None? {
          RaiseStep(line, acc, emitted, lineNum);
          return work, workLine, pr, mr, sr, appended, true;
        }
        SpuStep(line, openLine, prTotal, mrTotal, srTotal, emitted, lineNum, shares.value);
        pr := prTotal + shares.value.pr;
        mr := mrTotal + shares.value.mr;
        sr := srTotal + shares.value.sr;
      } else if rectype == "SWR" {
        var shares := ExtractShares(line, SwrPrStart, SwrMrStart, SwrSrStart);
        if shares.None? {
          RaiseStep(line, acc, emitted, lineNum);
          return work, workLine, pr, mr, sr, appended, true;
        }
        SwrStep(line, openLine, prTotal, mrTotal, srTotal, emitted, lineNum, shares.value);
        pr := prTotal + shares.value.pr;
        mr := mrTotal + shares.value.mr;
        sr := srTotal + shares.value.sr;
      } else {
        SkipStep(line, Running(acc, emitted), lineNum);
      }
    }

    /**
     * The pass over the lines. `raised` is `Some(n)` when a share field of
     * line `n` is not an integer, where Python's `int` raises `ValueError`;
     * the messages appended before that stay in `errors`.
     */
    method CheckRecordsAndMath() returns (raised: Option<nat>)
      modifies this`errors
      ensures errors == old(errors) + Messages(Check(lines).errors)
      ensures Check(lines).Completed? ==> raised == None
      ensures Check(lines).Raised? ==> raised == Some(Check(lines).line)
    {
      ghost var infos := ReadAll(lines);
      ghost var final := RunFrom(Start, infos, 0);
      RunAtIsRunFrom(Start, infos, 0);
      assert infos[0..] == infos;
      var currentWork: Option<string> := None;
      ghost var openLine: Option<nat> := None;
      var prTotal: nat, mrTotal: nat, srTotal: nat := 0, 0, 0;
      ghost var emitted: seq<ShareError> := [];
      var idx := 0;
      assert Messages(emitted) == [];
      assert errors == old(errors) + Messages(emitted);
      while idx < |lines|
        invariant 0 <= idx <= |lines|
        invariant currentWork == if openLine.Some? then Some(WorkLabel(openLine.value)) else None
        invariant final == RunAt(Running(Acc(openLine, Totals(prTotal, mrTotal, srTotal)), emitted), infos, idx)
        invariant errors == old(errors) + Messages(emitted)
        decreases |lines| - idx
      {
        ghost var s := Running(Acc(openLine, Totals(prTotal, mrTotal, srTotal)), emitted);
        RunAtStep(lines, s, idx);
        var failed;
        currentWork, openLine, prTotal, mrTotal, srTotal, emitted, failed :=
          VisitLine(lines[idx], idx + 1, currentWork, openLine, prTotal, mrTotal, srTotal, emitted, old(errors));
        if failed {
          RunAtFailed(emitted, idx + 1, infos, idx + 1);
          return Some(idx + 1);
        }
        idx := idx + 1;
      }
      ghost var acc := Acc(openLine, Totals(prTotal, mrTotal, srTotal));
      if currentWork.Some? {
        ValidateShareTotals(currentWork.value, prTotal, mrTotal, srTotal);
        Finalized(old(errors), emitted, acc);
      } else {
        assert emitted + Finalize(acc) == emitted;
      }
      return None;
    }

    /**
     * `run()`: the pass, then passed exactly when no error has been recorded
     * in this object. On a fresh object that is exactly when the pass found none.
     */
    method Run() returns (r: RunResult)
      modifies this`errors
      ensures errors == old(errors) + Messages(Check(lines).errors)
      ensures Check(lines).Completed? ==> r == Returned(errors == [])
      ensures Check(lines).Raised? ==> r == RaisedValueError(Check(lines).line)
      ensures r.Returned? && old(errors) == [] ==> (r.passed <==> Check(lines).errors == [])
    {
      var raised := CheckRecordsAndMath();
      if raised.Some? {
        return RaisedValueError(raised.value);
      }
      return Returned(|errors| == 0);
    }
  }
}
