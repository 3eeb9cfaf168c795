/** `compare` of tools/ts_yuchdat.py: the YUCHKDAT walk of
    `CompYuchkdat`, with the tolerances read from a `Thresholds` object and,
    when asked, every exceeding difference fed back into it with
    `update_threshold`. The object is updated in place, so later sets read
    the tuned tolerances, and the updates made before an exception stay. */
module TsYuchdat {
  import opened Common
  import opened ThresholdTable
  import opened ThresholdProps
  import opened TsThresholds
  import opened CompYuchkdat

  /** Where one line pair leaves the loop: it stops with a result or an
      exception, or goes on with the table and the running variables. */
  datatype Next = Stop(res: Result<int>, table: Table) | Go(table: Table, st: State)

  /** One pass of the loop body (lines 90-167): a `Check` line reads the
      tolerance of its step from the table as it stands; an exceeding
      difference is fed to `update_threshold` when asked, which reads
      `step` (NameError before the first `Check` line). */
  function StepLine(l1: Line, l2: Line, t: Table, roundUp: real -> real,
                    logBlend: (real, real, real) -> real, v: string, update: bool,
                    minval: real, st: State): (r: Next)
    requires WellShaped(t)
    ensures WellShaped(r.table) && SameSettings(r.table, t)
    ensures !update ==> r.table == t
    ensures r.Go? ==> st.count <= r.st.count <= st.count + 1
    ensures r.Stop? && r.res.Success? ==> r.res.value == -1
  {
    match (if IsCheckLine(l1) then CheckStep(l1) else Success(0))
    case Failure(e) => Stop(Failure(e), t)
    case Success(step) =>
      match (if IsCheckLine(l1) then GetThreshold(t, logBlend, v, step) else Success(st.tol))
      case Failure(e) => Stop(Failure(e), t)
      case Success(tol) =>
        var st1 := if IsCheckLine(l1) then st.(step := Some(step), tol := tol) else st;
        if !(IsValidLine(l1) && IsValidLine(l2)) then Go(t, st1)
        else match Judge(l1, l2, minval, st1)
          case Failure(e) => Stop(Failure(e), t)
          case Success(Mismatch) => Stop(Success(-1), t)
          case Success(Judged(st2, exceeded)) =>
            if update && exceeded.Some? then
              if st2.step.None? then Stop(Failure(NameError), t)
              else
                var (t2, out) := Update(t, roundUp, logBlend, v, st2.step.value, exceeded.value);
                if out.Raised? then Stop(Failure(out.error), t2) else Go(t2, st2)
            else Go(t, st2)
  }

  /** The line loop of lines 89-169 from line `i` on, with the table as it
      stands, ending with the result of lines 182-186: what the call
      returns or raises, and the table it leaves. `minval` is read once,
      at line 62. */
  function RunFrom(d1: seq<Line>, d2: seq<Line>, t: Table, roundUp: real -> real,
                   logBlend: (real, real, real) -> real, v: string, update: bool,
                   minval: real, i: nat, st: State): (r: (Result<int>, Table))
    requires WellShaped(t)
    ensures WellShaped(r.1) && SameSettings(r.1, t)
    ensures !update ==> r.1 == t
    ensures r.0.Success? ==> r.0.value == -1 || (r.0.value >= st.count && (i <= |d1| ==> r.0.value <= st.count + |d1| - i))
    decreases |d1| - i
  {
    if i >= |d1| || i >= |d2| then (Success(if st.nvalid == 0 then -1 else st.count), t)
    else match StepLine(d1[i], d2[i], t, roundUp, logBlend, v, update, minval, st)
      case Stop(res, t2) => (res, t2)
      case Go(t2, st2) => RunFrom(d1, d2, t2, roundUp, logBlend, v, update, minval, i + 1, st2)
  }

  lemma RunFromStep(d1: seq<Line>, d2: seq<Line>, t: Table, roundUp: real -> real,
                    logBlend: (real, real, real) -> real, v: string, update: bool,
                    minval: real, i: nat, st: State)
    requires WellShaped(t) && i < |d1| && i < |d2|
    ensures var n := StepLine(d1[i], d2[i], t, roundUp, logBlend, v, update, minval, st);
            RunFrom(d1, d2, t, roundUp, logBlend, v, update, minval, i, st)
              == if n.Stop? then (n.res, n.table)
                 else RunFrom(d1, d2, n.table, roundUp, logBlend, v, update, minval, i + 1, n.st)
  {
  }

  /** The whole of `compare`: -1 for a missing file; the first tolerance
      is that of step 0, which raises IndexError on a table without
      steps. Without `update_thresholds` the table is left as it was. */
  function Run(f1: Option<seq<Line>>, f2: Option<seq<Line>>, t: Table, roundUp: real -> real,
               logBlend: (real, real, real) -> real, v: string, update: bool): (r: (Result<int>, Table))
    requires WellShaped(t)
    ensures f1.None? || f2.None? ==> r == (Success(-1), t)
    ensures f1.Some? && f2.Some? && |t.steps| == 0 ==> r == (Failure(IndexError), t)
    ensures WellShaped(r.1) && SameSettings(r.1, t)
    ensures !update ==> r.1 == t
    ensures r.0.Success? && f1.Some? ==> r.0.value == -1 || 0 <= r.0.value <= |f1.value|
  {
    if f1.None? || f2.None? then (Success(-1), t)
    else match GetThreshold(t, logBlend, v, 0)
      case Failure(e) => (Failure(e), t)
      case Success(tol) =>
        RunFrom(f1.value, f2.value, t, roundUp, logBlend, v, update, t.minval, 0, State(None, tol, 0, 0, 0.0))
  }

  /** One line pair only ever raises a tolerance. */
  lemma StepLineNeverLowers(l1: Line, l2: Line, t: Table, roundUp: real -> real,
                            logBlend: (real, real, real) -> real, v: string, update: bool,
                            minval: real, st: State, w: string)
    requires WellShaped(t) && |t.steps| > 0 && RoundsUp(roundUp) && t.increaseFactor >= 1.0
    ensures var r := StepLine(l1, l2, t, roundUp, logBlend, v, update, minval, st).table;
            forall k :: 0 <= k < |t.steps| ==> Curve(r, w)[k] >= Curve(t, w)[k]
  {
    var c := if IsCheckLine(l1) then CheckStep(l1) else Success(0);
    if c.Success? {
      var g := if IsCheckLine(l1) then GetThreshold(t, logBlend, v, c.value) else Success(st.tol);
      if g.Success? && IsValidLine(l1) && IsValidLine(l2) {
        var st1 := if IsCheckLine(l1) then st.(step := Some(c.value), tol := g.value) else st;
        var j := Judge(l1, l2, minval, st1);
        if j.Success? && j.value.Judged? && j.value.st.step.Some? && j.value.exceeded.Some? {
          UpdateNeverLowers(t, roundUp, logBlend, v, j.value.st.step.value, j.value.exceeded.value, w);
        }
      }
    }
  }

  /** Tuning only ever raises a tolerance: every curve of the table left
      behind lies pointwise on or above the curve it replaced. */
  lemma {:induction false} RunFromNeverLowers(d1: seq<Line>, d2: seq<Line>, t: Table, roundUp: real -> real,
                                              logBlend: (real, real, real) -> real, v: string, update: bool,
                                              minval: real, i: nat, st: State, w: string)
    requires WellShaped(t) && |t.steps| > 0 && RoundsUp(roundUp) && t.increaseFactor >= 1.0
    ensures var r := RunFrom(d1, d2, t, roundUp, logBlend, v, update, minval, i, st).1;
            forall k :: 0 <= k < |t.steps| ==> Curve(r, w)[k] >= Curve(t, w)[k]
    decreases |d1| - i
  {
    if i < |d1| && i < |d2| {
      StepLineNeverLowers(d1[i], d2[i], t, roundUp, logBlend, v, update, minval, st, w);
      var n := StepLine(d1[i], d2[i], t, roundUp, logBlend, v, update, minval, st);
      if n.Go? {
        RunFromNeverLowers(d1, d2, n.table, roundUp, logBlend, v, update, minval, i + 1, n.st, w);
      }
    }
  }

  lemma RunNeverLowers(f1: Option<seq<Line>>, f2: Option<seq<Line>>, t: Table, roundUp: real -> real,
                       logBlend: (real, real, real) -> real, v: string, update: bool, w: string)
    requires WellShaped(t) && RoundsUp(roundUp) && t.increaseFactor >= 1.0
    ensures var r := Run(f1, f2, t, roundUp, logBlend, v, update).1;
            forall k :: 0 <= k < |t.steps| ==> Curve(r, w)[k] >= Curve(t, w)[k]
  {
    if f1.Some? && f2.Some? && |t.steps| > 0 {
      var tol := GetThreshold(t, logBlend, v, 0).value;
      RunFromNeverLowers(f1.value, f2.value, t, roundUp, logBlend, v, update, t.minval, 0, State(None, tol, 0, 0, 0.0), w);
    }
  }

  /** Every tolerance the table gives `v` is non-negative. */
  ghost predicate NonNegativeTolerances(t: Table, logBlend: (real, real, real) -> real, v: string)
    requires WellShaped(t) && |t.steps| > 0
  {
    forall step :: Lookup(t, logBlend, v, step) >= 0.0
  }

  /** A line pair compared with itself exceeds no non-negative tolerance,
      so it goes on with the table untouched and the count unchanged. */
  lemma StepLineSelf(l: Line, t: Table, roundUp: real -> real,
                     logBlend: (real, real, real) -> real, v: string, update: bool,
                     minval: real, st: State)
    requires WellShaped(t) && |t.steps| > 0 && NonNegativeTolerances(t, logBlend, v)
    requires st.tol >= 0.0 && (minval == -1.0 || minval >= 0.0)
    ensures var r := StepLine(l, l, t, roundUp, logBlend, v, update, minval, st);
            r.table == t && (r.Go? ==> r.st.count == st.count && r.st.tol >= 0.0)
  {
  }

  /** A file compared with itself counts no error and so never tunes the
      table, even with `update_thresholds` set. */
  lemma {:induction false} RunFromSelf(d: seq<Line>, t: Table, roundUp: real -> real,
                                       logBlend: (real, real, real) -> real, v: string, update: bool,
                                       minval: real, i: nat, st: State)
    requires WellShaped(t) && |t.steps| > 0 && NonNegativeTolerances(t, logBlend, v)
    requires st.tol >= 0.0 && (minval == -1.0 || minval >= 0.0)
    ensures var r := RunFrom(d, d, t, roundUp, logBlend, v, update, minval, i, st);
            r.1 == t && (r.0.Success? ==> r.0.value == -1 || r.0.value == st.count)
    decreases |d| - i
  {
    if i < |d| {
      StepLineSelf(d[i], t, roundUp, logBlend, v, update, minval, st);
      var n := StepLine(d[i], d[i], t, roundUp, logBlend, v, update, minval, st);
      if n.Go? {
        RunFromSelf(d, t, roundUp, logBlend, v, update, minval, i + 1, n.st);
      }
    }
  }

  lemma SelfComparisonKeepsTable(d: seq<Line>, t: Table, roundUp: real -> real,
                                 logBlend: (real, real, real) -> real, v: string, update: bool)
    requires WellShaped(t) && |t.steps| > 0 && NonNegativeTolerances(t, logBlend, v)
    requires t.minval == -1.0 || t.minval >= 0.0
    ensures var r := Run(Some(d), Some(d), t, roundUp, logBlend, v, update);
            r.1 == t && (r.0.Success? ==> r.0.value <= 0)
  {
    var tol := GetThreshold(t, logBlend, v, 0).value;
    RunFromSelf(d, t, roundUp, logBlend, v, update, t.minval, 0, State(None, tol, 0, 0, 0.0));
  }

  /** One pass of the loop body on the object: `stop` holds what the call
      returns or raises when it ends here, `next` the running variables
      otherwise. */
  method CompareLine(l1: Line, l2: Line, thresholds: Thresholds, thresholdVar: string,
                     updateThresholds: bool, minval: real, st: State)
    returns (stop: Option<Result<int>>, next: State)
    requires thresholds.Valid()
    modifies thresholds
    ensures thresholds.Valid()
    ensures var n := StepLine(l1, l2, old(thresholds.Value()), thresholds.roundUp, thresholds.logBlend,
                              thresholdVar, updateThresholds, minval, st);
            && thresholds.Value() == n.table
            && (n.Stop? ==> stop == Some(n.res))
            && (n.Go? ==> stop.None? && next == n.st)
  {
    var step, tol := st.step, st.tol;
    if IsCheckLine(l1) {
      var s := CheckStep(l1);
      if s.Failure? {
        return Some(Failure(s.error)), st;
      }
      step := Some(s.value);
      var g := GetThreshold(thresholds.Value(), thresholds.logBlend, thresholdVar, s.value);
      if g.Failure? {
        return Some(Failure(g.error)), st;
      }
      tol := g.value;
    }
    next := st.(step := step, tol := tol);
    if IsValidLine(l1) && IsValidLine(l2) {
      next := next.(nvalid := next.nvalid + 1);
      if Strip(l1[0].text) != Strip(l2[0].text) {
        return Some(Success(-1)), next;
      }
      var ldiff := LastDiff(l1, l2, minval);
      if ldiff.Failure? {
        return Some(Failure(ldiff.error)), next;
      }
      if ldiff.value > tol {
        next := next.(count := next.count + 1);
        if ldiff.value > next.maxdiff {
          if step.None? {
            return Some(Failure(NameError)), next;
          }
          next := next.(maxdiff := ldiff.value);
        }
        if updateThresholds {
          if step.None? {
            return Some(Failure(NameError)), next;
          }
          var out := thresholds.UpdateThreshold(thresholdVar, step.value, ldiff.value);
          if out.Raised? {
            return Some(Failure(out.error)), next;
          }
        }
      }
    }
    stop := None;
  }

  /** `compare(file1, file2, thresholds, threshold_var, update_thresholds)`. */
  method Compare(f1: Option<seq<Line>>, f2: Option<seq<Line>>, thresholds: Thresholds,
                 thresholdVar: string, updateThresholds: bool) returns (r: Result<int>)
    requires thresholds.Valid()
    modifies thresholds
    ensures thresholds.Valid()
    ensures (r, thresholds.Value())
            == Run(f1, f2, old(thresholds.Value()), thresholds.roundUp, thresholds.logBlend, thresholdVar, updateThresholds)
  {
    if f1.None? || f2.None? {
      return Success(-1);
    }
    var data1, data2 := f1.value, f2.value;
    var first := GetThreshold(thresholds.Value(), thresholds.logBlend, thresholdVar, 0);
    if first.Failure? {
      return Failure(first.error);
    }
    var minval := thresholds.minval;
    var st := State(None, first.value, 0, 0, 0.0);
    var nline := MinInt(|data1|, |data2|);
    for i := 0 to nline
      invariant thresholds.Valid()
      invariant RunFrom(data1, data2, thresholds.Value(), thresholds.roundUp, thresholds.logBlend, thresholdVar,
                        updateThresholds, minval, i, st)
                == Run(f1, f2, old(thresholds.Value()), thresholds.roundUp, thresholds.logBlend, thresholdVar, updateThresholds)
    {
      RunFromStep(data1, data2, thresholds.Value(), thresholds.roundUp, thresholds.logBlend, thresholdVar,
                  updateThresholds, minval, i, st);
      var stop, next := CompareLine(data1[i], data2[i], thresholds, thresholdVar, updateThresholds, minval, st);
      if stop.Some? {
        return stop.value;
      }
      st := next;
    }
    if st.nvalid == 0 {
      return Success(-1);
    }
    return Success(st.count);
  }
}
