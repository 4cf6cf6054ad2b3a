/**
 * The work-scoped share accumulator of `_check_records_and_math` as a pure
 * state machine over the lines of a file, and the properties of a whole pass.
 *
 * A pass is a left-to-right run of `Step` over the lines as `Read` sees them;
 * `Close` then validates the work still open at the end of input. A share
 * field that Python's `int` rejects raises `ValueError`, which ends the pass:
 * that is the `Failed` state and the `Raised` outcome.
 */
module Accumulator {
  import opened Wrappers
  import opened PyText
  import opened Shares
  import opened Records
  import opened ShareTotals

  /**
   * The loop's variables: the open work (if any), known by the number of the
   * NWR/REV line that opened it, so `Some(n)` stands for `current_work ==
   * f"Line {n}"`; and the three running totals.
   */
  datatype Acc = Acc(current: Option<nat>, totals: Totals)

  /** Between lines: still running with the errors so far, or stopped by `ValueError` at a line. */
  datatype State = Running(acc: Acc, errors: seq<ShareError>) | Failed(errors: seq<ShareError>, line: nat)

  /** `current_work = None`, all totals 0, no errors from this pass. */
  const Start: State := Running(Acc(None, Zero), [])

  /** `if current_work: self._validate_share_totals(...)`. */
  function Finalize(acc: Acc): seq<ShareError> {
    if acc.current.Some? then ShareErrors(acc.current.value, acc.totals) else []
  }

  /** One iteration of the loop on a line whose 1-based number is `n`. */
  function Step(s: State, info: LineInfo, n: nat): State {
    if s.Failed? then s
    else match info.kind
      case Boundary => Running(Acc(Some(n), Zero), s.errors + Finalize(s.acc))
      case PublisherShare => Accumulate(s, info.shares, n)
      case WriterShare => Accumulate(s, info.shares, n)
      case Blank => s
      case Unrecognised => s
  }

  /** `pr_total += pr; mr_total += mr; sr_total += sr`, unless extracting the shares raised. */
  function Accumulate(s: State, shares: Option<Totals>, n: nat): State
    requires s.Running?
  {
    match shares
    case None => Failed(s.errors, n)
    case Some(t) => Running(s.acc.(totals := Totals(s.acc.totals.pr + t.pr, s.acc.totals.mr + t.mr, s.acc.totals.sr + t.sr)), s.errors)
  }

  /** Run the loop over `infos`, after `n` lines have already been consumed. */
  function RunFrom(s: State, infos: seq<LineInfo>, n: nat): State
    decreases |infos|
  {
    if infos == [] then s else RunFrom(Step(s, infos[0], n + 1), infos[1..], n + 1)
  }

  /** How `_check_records_and_math` ends: it returns, or `ValueError` escapes at a line. */
  datatype Outcome = Completed(errors: seq<ShareError>) | Raised(errors: seq<ShareError>, line: nat)

  /** After the loop, the work still open is validated. */
  function Close(s: State): Outcome {
    match s
    case Running(acc, e) => Completed(e + Finalize(acc))
    case Failed(e, n) => Raised(e, n)
  }

  /** A whole pass over lines as `Read` sees them. */
  function Pass(infos: seq<LineInfo>): Outcome {
    Close(RunFrom(Start, infos, 0))
  }

  /** The errors one pass over `lines` appends, and how it ends. */
  function Check(lines: seq<string>): Outcome {
    Pass(ReadAll(lines))
  }

  /* ---------------------------------------------------- basic run facts */

  lemma {:induction false} RunFromFailed(e: seq<ShareError>, m: nat, infos: seq<LineInfo>, n: nat)
    ensures RunFrom(Failed(e, m), infos, n) == Failed(e, m)
    decreases |infos|
  {
    if infos != [] { RunFromFailed(e, m, infos[1..], n + 1); }
  }

  lemma {:induction false} RunFromAppend(s: State, a: seq<LineInfo>, b: seq<LineInfo>, n: nat)
    ensures RunFrom(s, a + b, n) == RunFrom(RunFrom(s, a, n), b, n + |a|)
    decreases |a|
  {
    if a == [] {
      assert a + b == b;
    } else {
      assert (a + b)[0] == a[0];
      assert (a + b)[1..] == a[1..] + b;
      RunFromAppend(Step(s, a[0], n + 1), a[1..], b, n + 1);
    }
  }


  /** A pass over two parts: the second part starts from the state the first leaves. */
  lemma PassAppend(a: seq<LineInfo>, b: seq<LineInfo>)
    ensures Pass(a + b) == Close(RunFrom(RunFrom(Start, a, 0), b, |a|))
  {
    RunFromAppend(Start, a, b, 0);
    assert RunFrom(Start, a + b, 0) == RunFrom(RunFrom(Start, a, 0), b, |a|);
  }

  /** An ignored line changes neither the totals nor the errors. */
  lemma IgnoredLineNoEffect(s: State, info: LineInfo, n: nat)
    requires Ignored(info)
    ensures Step(s, info, n) == s
  {
  }

  lemma {:induction false} IgnoredRunNoEffect(s: State, infos: seq<LineInfo>, n: nat)
    requires forall i :: 0 <= i < |infos| ==> Ignored(infos[i])
    ensures RunFrom(s, infos, n) == s
    decreases |infos|
  {
    if infos != [] {
      IgnoredLineNoEffect(s, infos[0], n + 1);
      IgnoredRunNoEffect(s, infos[1..], n + 1);
    }
  }

  /** Blank or unknown-tag lines at the end of a file change nothing about the pass. */
  lemma TrailingIgnoredLinesInvisible(infos: seq<LineInfo>, extra: seq<LineInfo>)
    requires forall i :: 0 <= i < |extra| ==> Ignored(extra[i])
    ensures Pass(infos + extra) == Pass(infos)
  {
    RunFromAppend(Start, infos, extra, 0);
    IgnoredRunNoEffect(RunFrom(Start, infos, 0), extra, |infos|);
  }

  /* ------------------------------------------------ errors are appended */

  lemma {:induction false} ErrorsGrow(s: State, infos: seq<LineInfo>, n: nat)
    ensures s.errors <= RunFrom(s, infos, n).errors
    decreases |infos|
  {
    if infos != [] {
      var s' := Step(s, infos[0], n + 1);
      assert s.errors <= s'.errors;
      ErrorsGrow(s', infos[1..], n + 1);
    }
  }

  /** The errors found in the first `i` lines stay, unchanged and in front, in the final list. */
  lemma ErrorsAppendOnly(infos: seq<LineInfo>, i: nat)
    requires i <= |infos|
    ensures RunFrom(Start, infos[..i], 0).errors <= Pass(infos).errors
  {
    assert infos == infos[..i] + infos[i..];
    RunFromAppend(Start, infos[..i], infos[i..], 0);
    var mid := RunFrom(Start, infos[..i], 0);
    ErrorsGrow(mid, infos[i..], i);
  }

  /* --------------------------------------------------- counting errors */

  /** Number of NWR/REV lines. */
  function Boundaries(infos: seq<LineInfo>): nat {
    if infos == [] then 0
    else (if infos[0].kind == Boundary then 1 else 0) + Boundaries(infos[1..])
  }

  function OpenWorks(s: State): nat {
    if s.Running? && s.acc.current.Some? then 1 else 0
  }

  lemma {:induction false} ErrorBoundFrom(s: State, infos: seq<LineInfo>, n: nat)
    ensures |Close(RunFrom(s, infos, n)).errors| <= |s.errors| + 3 * (OpenWorks(s) + Boundaries(infos))
    decreases |infos|
  {
    if infos == [] {
      assert s.Running? ==> |Finalize(s.acc)| <= 3 * OpenWorks(s);
    } else {
      var s' := Step(s, infos[0], n + 1);
      ErrorBoundFrom(s', infos[1..], n + 1);
      if s.Running? && infos[0].kind == Boundary {
        assert |Finalize(s.acc)| <= 3 * OpenWorks(s);
      }
    }
  }

  /** A pass records at most three errors per NWR/REV line. */
  lemma ErrorBound(infos: seq<LineInfo>)
    ensures |Pass(infos).errors| <= 3 * Boundaries(infos)
  {
    ErrorBoundFrom(Start, infos, 0);
  }

  /** A file without NWR/REV lines has no share errors, whatever its share lines hold. */
  lemma NoBoundaryNoErrors(infos: seq<LineInfo>)
    requires forall i :: 0 <= i < |infos| ==> infos[i].kind != Boundary
    ensures Pass(infos).errors == []
  {
    BoundariesNone(infos);
    ErrorBound(infos);
  }

  /* ------------------------------------------------- ValueError outcome */

  predicate NoFailures(infos: seq<LineInfo>) {
    forall i :: 0 <= i < |infos| ==> Parses(infos[i])
  }

  lemma StepFails(s: State, info: LineInfo, n: nat)
    requires s.Running?
    ensures Step(s, info, n).Failed? <==> !Parses(info)
    ensures Step(s, info, n).Failed? ==> Step(s, info, n) == Failed(s.errors, n)
  {
  }

  lemma {:induction false} FailureFrom(s: State, infos: seq<LineInfo>, n: nat)
    requires s.Running?
    ensures RunFrom(s, infos, n).Failed? <==> !NoFailures(infos)
    ensures RunFrom(s, infos, n).Failed? ==>
      var m := RunFrom(s, infos, n).line;
      n + 1 <= m <= n + |infos| && !Parses(infos[m - n - 1]) && NoFailures(infos[..m - n - 1])
    decreases |infos|
  {
    if infos != [] {
      var s' := Step(s, infos[0], n + 1);
      StepFails(s, infos[0], n + 1);
      if s'.Failed? {
        RunFromFailed(s'.errors, s'.line, infos[1..], n + 1);
      } else {
        FailureFrom(s', infos[1..], n + 1);
        assert forall i :: 1 <= i < |infos| ==> infos[i] == infos[1..][i - 1];
        if RunFrom(s', infos[1..], n + 1).Failed? {
          var m := RunFrom(s', infos[1..], n + 1).line;
          assert infos[..m - n - 1] == [infos[0]] + infos[1..][..m - n - 2];
        }
      }
    }
  }

  /**
   * The pass raises exactly when some share field is neither blank nor
   * digits, and it raises at the first line holding such a field.
   */
  lemma RaisedAtFirstFailure(infos: seq<LineInfo>)
    ensures Pass(infos).Raised? <==> exists i :: 0 <= i < |infos| && !Parses(infos[i])
    ensures Pass(infos).Raised? ==>
      1 <= Pass(infos).line <= |infos| && !Parses(infos[Pass(infos).line - 1])
      && forall i :: 0 <= i < Pass(infos).line - 1 ==> Parses(infos[i])
  {
    FailureFrom(Start, infos, 0);
    if Pass(infos).Raised? {
      var m := Pass(infos).line;
      assert forall i :: 0 <= i < m - 1 ==> infos[..m - 1][i] == infos[i];
    }
  }

  /**
   * When the pass raises at line `m`, the errors it leaves are exactly those
   * of the lines before `m`: the works validated before the exception.
   */
  lemma RaisedKeepsEarlierErrors(infos: seq<LineInfo>)
    ensures Pass(infos).Raised? ==>
      1 <= Pass(infos).line <= |infos|
      && Pass(infos).errors == RunFrom(Start, infos[..Pass(infos).line - 1], 0).errors
  {
    FailureFrom(Start, infos, 0);
    if Pass(infos).Raised? {
      var m := Pass(infos).line;
      var pre, rest := infos[..m - 1], infos[m - 1..];
      assert infos == pre + rest;
      RunFromAppend(Start, pre, rest, 0);
      var mid := RunFrom(Start, pre, 0);
      FailureFrom(Start, pre, 0);
      assert mid.Running?;
      assert rest[0] == infos[m - 1];
      StepFails(mid, rest[0], m);
      RunFromFailed(mid.errors, m, rest[1..], m);
    }
  }

  /* ------------------------------------ shares before the first work */

  predicate Idle(s: State) {
    s.Running? && s.acc.current.None?
  }

  /** Equal, or both with no open work and the same errors: the totals then do not matter. */
  predicate SameUpToIdleTotals(s1: State, s2: State) {
    s1 == s2 || (Idle(s1) && Idle(s2) && s1.errors == s2.errors)
  }

  lemma StepKeepsSameness(s1: State, s2: State, info: LineInfo, n: nat)
    requires SameUpToIdleTotals(s1, s2)
    ensures SameUpToIdleTotals(Step(s1, info, n), Step(s2, info, n))
  {
  }

  lemma {:induction false} RunKeepsSameness(s1: State, s2: State, infos: seq<LineInfo>, n: nat)
    requires SameUpToIdleTotals(s1, s2)
    ensures Close(RunFrom(s1, infos, n)) == Close(RunFrom(s2, infos, n))
    decreases |infos|
  {
    if infos != [] {
      StepKeepsSameness(s1, s2, infos[0], n + 1);
      RunKeepsSameness(Step(s1, infos[0], n + 1), Step(s2, infos[0], n + 1), infos[1..], n + 1);
    }
  }

  lemma {:induction false} PreambleStaysIdle(s: State, pre: seq<LineInfo>, n: nat)
    requires Idle(s) && Boundaries(pre) == 0 && NoFailures(pre)
    ensures Idle(RunFrom(s, pre, n)) && RunFrom(s, pre, n).errors == s.errors
    decreases |pre|
  {
    if pre != [] {
      assert Parses(pre[0]);
      assert NoFailures(pre[1..]) by {
        assert forall i :: 0 <= i < |pre| - 1 ==> pre[1..][i] == pre[i + 1];
      }
      PreambleStaysIdle(Step(s, pre[0], n + 1), pre[1..], n + 1);
    }
  }

  lemma IdleAfterPreamble(pre: seq<LineInfo>)
    requires forall i :: 0 <= i < |pre| ==> pre[i].kind != Boundary && Parses(pre[i])
    ensures Idle(RunFrom(Start, pre, 0)) && RunFrom(Start, pre, 0).errors == []
  {
    BoundariesNone(pre);
    PreambleStaysIdle(Start, pre, 0);
  }

  /**
   * Shares on SPU/SWR lines before the first NWR/REV never reach a checked
   * total: replacing those lines by any others of the same count, again
   * without NWR/REV and without bad share fields, changes nothing.
   */
  lemma PreambleSharesDiscarded(pre: seq<LineInfo>, pre': seq<LineInfo>, post: seq<LineInfo>)
    requires |pre| == |pre'|
    requires forall i :: 0 <= i < |pre| ==> pre[i].kind != Boundary && Parses(pre[i])
    requires forall i :: 0 <= i < |pre'| ==> pre'[i].kind != Boundary && Parses(pre'[i])
    ensures Pass(pre + post) == Pass(pre' + post)
  {
    var s, s' := RunFrom(Start, pre, 0), RunFrom(Start, pre', 0);
    PassAppend(pre, post);
    PassAppend(pre', post);
    IdleAfterPreamble(pre);
    IdleAfterPreamble(pre');
    RunKeepsSameness(s, s', post, |pre|);
  }

  /* ------------------------------ reference: the file as a list of works */

  /** The first NWR/REV line at or after `i`, or `|infos|`. */
  function NextBoundary(infos: seq<LineInfo>, i: nat): (j: nat)
    requires i <= |infos|
    ensures i <= j <= |infos|
    ensures forall k :: i <= k < j ==> infos[k].kind != Boundary
    ensures j < |infos| ==> infos[j].kind == Boundary
    decreases |infos| - i
  {
    if i == |infos| || infos[i].kind == Boundary then i else NextBoundary(infos, i + 1)
  }

  /** What a line that does not raise adds to the open totals. */
  function LineAdd(info: LineInfo): Totals
    requires Parses(info)
  {
    if IsShare(info) then info.shares.value else Zero
  }

  /** The sum of the shares on the SPU/SWR lines of a run of lines. */
  function SegmentTotals(seg: seq<LineInfo>): Totals
    requires NoFailures(seg)
  {
    if seg == [] then Zero else Add(LineAdd(seg[0]), SegmentTotals(seg[1..]))
  }

  lemma AddAssoc(a: Totals, b: Totals, c: Totals)
    ensures Add(Add(a, b), c) == Add(a, Add(b, c))
  {
  }

  lemma AddZero(t: Totals)
    ensures Add(Zero, t) == t
  {
  }

  lemma StepAdds(acc: Acc, e: seq<ShareError>, info: LineInfo, n: nat)
    requires info.kind != Boundary && Parses(info)
    ensures Step(Running(acc, e), info, n) == Running(Acc(acc.current, Add(acc.totals, LineAdd(info))), e)
  {
  }

  /** One work: its label and the sum of the shares of the lines up to the next NWR/REV. */
  datatype Work = Work(workLine: nat, totals: Totals)

  lemma NoFailuresSlice(infos: seq<LineInfo>, i: nat, j: nat)
    requires i <= j <= |infos| && NoFailures(infos)
    ensures NoFailures(infos[i..j])
  {
    assert forall k :: 0 <= k < j - i ==> infos[i..j][k] == infos[i + k];
  }

  /** The works opened at the NWR/REV line `b` and at every later one. */
  function WorksFrom(infos: seq<LineInfo>, b: nat): seq<Work>
    requires b < |infos| && NoFailures(infos)
    decreases |infos| - b
  {
    var j := NextBoundary(infos, b + 1);
    NoFailuresSlice(infos, b + 1, j);
    [Work(b + 1, SegmentTotals(infos[b + 1..j]))]
    + (if j < |infos| then WorksFrom(infos, j) else [])
  }

  /** The works of a file, in order; whatever precedes the first NWR/REV belongs to none. */
  function Works(infos: seq<LineInfo>): seq<Work>
    requires NoFailures(infos)
  {
    var j := NextBoundary(infos, 0);
    if j < |infos| then WorksFrom(infos, j) else []
  }

  function ErrorsOf(works: seq<Work>): seq<ShareError> {
    if works == [] then [] else ShareErrors(works[0].workLine, works[0].totals) + ErrorsOf(works[1..])
  }

  lemma {:induction false} SegmentRun(acc: Acc, e: seq<ShareError>, seg: seq<LineInfo>, n: nat)
    requires forall k :: 0 <= k < |seg| ==> seg[k].kind != Boundary
    requires NoFailures(seg)
    ensures RunFrom(Running(acc, e), seg, n) == Running(Acc(acc.current, Add(acc.totals, SegmentTotals(seg))), e)
    decreases |seg|
  {
    if seg != [] {
      var x := LineAdd(seg[0]);
      var acc' := Acc(acc.current, Add(acc.totals, x));
      StepAdds(acc, e, seg[0], n + 1);
      var rest := seg[1..];
      assert forall k :: 0 <= k < |rest| ==> rest[k] == seg[k + 1];
      SegmentRun(acc', e, rest, n + 1);
      AddAssoc(acc.totals, x, SegmentTotals(rest));
    }
  }

  lemma StepBoundary(acc: Acc, e: seq<ShareError>, info: LineInfo, n: nat)
    requires info.kind == Boundary
    ensures Step(Running(acc, e), info, n) == Running(Acc(Some(n), Zero), e + Finalize(acc))
  {
  }

  /** The loop's view of one iteration: line `idx + 1` is `infos[idx]`. */
  lemma StepAt(s: State, infos: seq<LineInfo>, idx: nat)
    requires idx < |infos|
    ensures RunFrom(s, infos[idx..], idx) == RunFrom(Step(s, infos[idx], idx + 1), infos[idx + 1..], idx + 1)
  {
    assert infos[idx..][0] == infos[idx] && infos[idx..][1..] == infos[idx + 1..];
  }

  lemma WorksFromCons(infos: seq<LineInfo>, b: nat)
    requires b < |infos| && NoFailures(infos)
    ensures var j := NextBoundary(infos, b + 1);
      NoFailures(infos[b + 1..j]) &&
      ErrorsOf(WorksFrom(infos, b)) ==
        ShareErrors(b + 1, SegmentTotals(infos[b + 1..j]))
        + (if j < |infos| then ErrorsOf(WorksFrom(infos, j)) else [])
  {
    var j := NextBoundary(infos, b + 1);
    NoFailuresSlice(infos, b + 1, j);
    var w := Work(b + 1, SegmentTotals(infos[b + 1..j]));
    var rest := if j < |infos| then WorksFrom(infos, j) else [];
    assert WorksFrom(infos, b) == [w] + rest;
    assert ([w] + rest)[1..] == rest;
  }

  /** The pass over `infos[i..]` is the pass over `infos[i..j]` followed by the one over `infos[j..]`. */
  lemma RunFromSplit(s: State, infos: seq<LineInfo>, i: nat, j: nat)
    requires i <= j <= |infos|
    ensures RunFrom(s, infos[i..], i) == RunFrom(RunFrom(s, infos[i..j], i), infos[j..], j)
  {
    assert infos[i..] == infos[i..j] + infos[j..];
    RunFromAppend(s, infos[i..j], infos[j..], i);
  }

  /** The NWR/REV line at `b` closes the open work and opens its own. */
  lemma BoundaryAt(infos: seq<LineInfo>, b: nat, acc: Acc, e: seq<ShareError>)
    requires b < |infos| && infos[b].kind == Boundary
    ensures RunFrom(Running(acc, e), infos[b..], b)
      == RunFrom(Running(Acc(Some(b + 1), Zero), e + Finalize(acc)), infos[b + 1..], b + 1)
  {
    StepAt(Running(acc, e), infos, b);
    StepBoundary(acc, e, infos[b], b + 1);
  }

  /** The lines of one work take the pass from its NWR/REV line to the next one. */
  lemma WorkRun(infos: seq<LineInfo>, b: nat, acc: Acc, e: seq<ShareError>)
    requires b < |infos| && NoFailures(infos) && infos[b].kind == Boundary
    ensures var j := NextBoundary(infos, b + 1);
      NoFailures(infos[b + 1..j]) &&
      RunFrom(Running(acc, e), infos[b..], b)
        == RunFrom(Running(Acc(Some(b + 1), SegmentTotals(infos[b + 1..j])), e + Finalize(acc)), infos[j..], j)
  {
    var j := NextBoundary(infos, b + 1);
    NoFailuresSlice(infos, b + 1, j);
    var seg := infos[b + 1..j];
    var e' := e + Finalize(acc);
    var s1 := Running(Acc(Some(b + 1), Zero), e');
    BoundaryAt(infos, b, acc, e);
    RunFromSplit(s1, infos, b + 1, j);
    assert RunFrom(s1, seg, b + 1) == Running(Acc(Some(b + 1), SegmentTotals(seg)), e') by {
      assert forall k :: 0 <= k < |seg| ==> seg[k] == infos[b + 1 + k];
      SegmentRun(Acc(Some(b + 1), Zero), e', seg, b + 1);
      AddZero(SegmentTotals(seg));
    }
  }

  lemma {:induction false} WorksFromRun(infos: seq<LineInfo>, b: nat, acc: Acc, e: seq<ShareError>)
    requires b < |infos| && NoFailures(infos) && infos[b].kind == Boundary
    ensures Close(RunFrom(Running(acc, e), infos[b..], b)) == Completed(e + Finalize(acc) + ErrorsOf(WorksFrom(infos, b)))
    decreases |infos| - b
  {
    var j := NextBoundary(infos, b + 1);
    WorksFromCons(infos, b);
    WorkRun(infos, b, acc, e);
    var st := SegmentTotals(infos[b + 1..j]);
    var e' := e + Finalize(acc);
    var s2 := Running(Acc(Some(b + 1), st), e');
    assert Finalize(s2.acc) == ShareErrors(b + 1, st);
    if j < |infos| {
      WorksFromRun(infos, j, s2.acc, e');
      assert e' + ShareErrors(b + 1, st) + ErrorsOf(WorksFrom(infos, j))
          == e + Finalize(acc) + (ShareErrors(b + 1, st) + ErrorsOf(WorksFrom(infos, j)));
    } else {
      assert infos[j..] == [];
      assert ShareErrors(b + 1, st) + [] == ShareErrors(b + 1, st);
    }
  }

  /**
   * A pass that does not raise records, in file order, the errors of each work,
   * where a work is an NWR/REV line together with the lines up to the next one.
   */
  lemma PassMatchesWorks(infos: seq<LineInfo>)
    requires NoFailures(infos)
    ensures Pass(infos) == Completed(ErrorsOf(Works(infos)))
  {
    var j := NextBoundary(infos, 0);
    PreambleRun(infos);
    var s := Running(Acc(None, SegmentTotals(infos[0..j])), []);
    if j < |infos| {
      WorksFromRun(infos, j, s.acc, []);
      assert [] + Finalize(s.acc) + ErrorsOf(Works(infos)) == ErrorsOf(Works(infos));
    } else {
      assert infos[j..] == [];
    }
  }

  /** The lines before the first NWR/REV only add to totals nobody checks. */
  lemma PreambleRun(infos: seq<LineInfo>)
    requires NoFailures(infos)
    ensures var j := NextBoundary(infos, 0);
      NoFailures(infos[0..j]) &&
      RunFrom(Start, infos, 0) == RunFrom(Running(Acc(None, SegmentTotals(infos[0..j])), []), infos[j..], j)
  {
    var j := NextBoundary(infos, 0);
    NoFailuresSlice(infos, 0, j);
    var pre := infos[0..j];
    RunFromSplit(Start, infos, 0, j);
    assert infos[0..] == infos;
    assert RunFrom(Start, pre, 0) == Running(Acc(None, SegmentTotals(pre)), []) by {
      assert forall k :: 0 <= k < |pre| ==> pre[k] == infos[k];
      SegmentRun(Acc(None, Zero), [], pre, 0);
      AddZero(SegmentTotals(pre));
    }
  }

  lemma {:induction false} ErrorsOfEmpty(works: seq<Work>)
    ensures ErrorsOf(works) == [] <==> forall k :: 0 <= k < |works| ==> Balanced(works[k].totals)
    decreases |works|
  {
    if works != [] {
      ErrorsOfEmpty(works[1..]);
      assert forall k :: 1 <= k < |works| ==> works[k] == works[1..][k - 1];
    }
  }

  /** A pass that does not raise records no errors exactly when every work's three totals are 10000. */
  lemma NoErrorsIffAllBalanced(infos: seq<LineInfo>)
    requires NoFailures(infos)
    ensures Pass(infos) == Completed([]) <==>
      forall k :: 0 <= k < |Works(infos)| ==> Balanced(Works(infos)[k].totals)
  {
    PassMatchesWorks(infos);
    ErrorsOfEmpty(Works(infos));
  }

  lemma {:induction false} WorksFromCount(infos: seq<LineInfo>, b: nat)
    requires b < |infos| && NoFailures(infos) && infos[b].kind == Boundary
    ensures |WorksFrom(infos, b)| == Boundaries(infos[b..])
    decreases |infos| - b
  {
    var j := NextBoundary(infos, b + 1);
    var seg := infos[b + 1..j];
    assert forall k :: 0 <= k < |seg| ==> seg[k] == infos[b + 1 + k];
    assert infos[b..] == [infos[b]] + seg + infos[j..];
    BoundariesAppend([infos[b]] + seg, infos[j..]);
    BoundariesAppend([infos[b]], seg);
    BoundariesNone(seg);
    assert Boundaries([infos[b]]) == 1;
    if j < |infos| {
      WorksFromCount(infos, j);
    } else {
      assert infos[j..] == [];
    }
  }

  /** There is one work per NWR/REV line. */
  lemma WorksCount(infos: seq<LineInfo>)
    requires NoFailures(infos)
    ensures |Works(infos)| == Boundaries(infos)
  {
    var j := NextBoundary(infos, 0);
    assert forall k :: 0 <= k < j ==> infos[..j][k] == infos[k];
    assert infos == infos[..j] + infos[j..];
    BoundariesAppend(infos[..j], infos[j..]);
    BoundariesNone(infos[..j]);
    if j < |infos| {
      WorksFromCount(infos, j);
    } else {
      assert infos[j..] == [];
    }
  }

  lemma {:induction false} BoundariesAppend(a: seq<LineInfo>, b: seq<LineInfo>)
    ensures Boundaries(a + b) == Boundaries(a) + Boundaries(b)
    decreases |a|
  {
    if a == [] {
      assert a + b == b;
    } else {
      assert (a + b)[0] == a[0] && (a + b)[1..] == a[1..] + b;
      BoundariesAppend(a[1..], b);
    }
  }

  lemma {:induction false} BoundariesNone(a: seq<LineInfo>)
    requires forall k :: 0 <= k < |a| ==> a[k].kind != Boundary
    ensures Boundaries(a) == 0
    decreases |a|
  {
    if a != [] {
      assert forall k :: 0 <= k < |a| - 1 ==> a[1..][k] == a[k + 1];
      BoundariesNone(a[1..]);
    }
  }
}
