/** What the operations of a threshold table promise: lookup at and between
    breakpoints, tuning that never lowers a tolerance, and the structural
    edits with their inverses. */
module ThresholdProps {
  import opened Common
  import opened ThresholdTable

  // ---------------------------------------------------------------------
  // Bracketing indices

  lemma {:induction false} IndicesAtBreakpoint(steps: seq<int>, k: int)
    requires Increasing(steps) && 0 <= k < |steps|
    ensures Indices(steps, steps[k]) == (k, k)
  {
    var above := FirstAtLeast(steps, steps[k]);
    var below := LastAtMost(steps, steps[k]);
    assert above <= k;
    assert above == k;
    assert below >= k;
    assert below == k;
  }

  lemma {:induction false} IndicesBeforeTable(steps: seq<int>, step: int)
    requires Increasing(steps) && |steps| > 0 && step <= steps[0]
    ensures Indices(steps, step) == (0, 0)
  {
    var below := LastAtMost(steps, step);
    assert FirstAtLeast(steps, step) == 0;
    assert below <= 0;
  }

  lemma {:induction false} IndicesAfterTable(steps: seq<int>, step: int)
    requires Increasing(steps) && |steps| > 0 && step >= steps[|steps| - 1]
    ensures Indices(steps, step) == (|steps| - 1, |steps| - 1)
  {
    var n := |steps|;
    var above := FirstAtLeast(steps, step);
    assert LastAtMost(steps, step) == n - 1;
    assert above == n || above == n - 1;
  }

  lemma {:induction false} IndicesBetween(steps: seq<int>, k: int, step: int)
    requires Increasing(steps) && 0 <= k && k + 1 < |steps| && steps[k] < step < steps[k + 1]
    ensures Indices(steps, step) == (k, k + 1)
  {
    var above := FirstAtLeast(steps, step);
    var below := LastAtMost(steps, step);
    assert above == k + 1;
    assert below == k;
  }

  // ---------------------------------------------------------------------
  // Lookup

  /** At a breakpoint the stored value comes back; a variable without a
      curve of its own reads the default curve. */
  lemma LookupAtBreakpoint(t: Table, logBlend: (real, real, real) -> real, v: string, k: int)
    requires WellShaped(t) && Increasing(t.steps) && 0 <= k < |t.steps|
    ensures Lookup(t, logBlend, v, t.steps[k]) == Curve(t, v)[k]
    ensures v in t.variables ==> Lookup(t, logBlend, v, t.steps[k]) == t.thresholds[IndexOf(t.variables, v)][k]
    ensures v !in t.variables ==> Lookup(t, logBlend, v, t.steps[k]) == t.defaults[k]
  {
    IndicesAtBreakpoint(t.steps, k);
  }

  /** Before the first breakpoint the first value holds, after the last
      one the last value. */
  lemma LookupOutsideTable(t: Table, logBlend: (real, real, real) -> real, v: string, step: int)
    requires WellShaped(t) && Increasing(t.steps) && |t.steps| > 0
    ensures step <= t.steps[0] ==> Lookup(t, logBlend, v, step) == Curve(t, v)[0]
    ensures step >= t.steps[|t.steps| - 1] ==>
              Lookup(t, logBlend, v, step) == Curve(t, v)[|t.steps| - 1]
  {
    if step <= t.steps[0] { IndicesBeforeTable(t.steps, step); }
    if step >= t.steps[|t.steps| - 1] { IndicesAfterTable(t.steps, step); }
  }

  /** A linear blend with a weight strictly between 0 and 1 lies between
      its two ends. */
  lemma BlendBetween(y1: real, y2: real, x: real)
    requires 0.0 < x < 1.0
    ensures Min(y1, y2) <= y1 * (1.0 - x) + y2 * x <= Max(y1, y2)
  {
    var e := y2 - y1;
    var d := e * x;
    assert y1 * (1.0 - x) + y2 * x == y1 + d;
    if y1 <= y2 {
      ScaledDown(e, x);
    } else {
      ScaledDown(-e, x);
      assert -e * x == -d;
    }
  }

  /** Scaling a non-negative amount by a weight in (0, 1) keeps it between
      0 and the amount. */
  lemma ScaledDown(d: real, x: real)
    requires d >= 0.0 && 0.0 < x < 1.0
    ensures 0.0 <= d * x <= d
  {
    assert d - d * x == d * (1.0 - x);
  }

  function Min(a: real, b: real): real { if a <= b then a else b }

  /** Strictly between breakpoints `k` and `k + 1` (the lookup of a
      variable is this on its curve), const mode gives the value at `k + 1`
      and linear mode the linear blend, which lies between the two values. */
  lemma LookupCurveBetween(steps: seq<int>, mode: Mode, logBlend: (real, real, real) -> real,
                           c: seq<real>, k: int, step: int)
    requires Increasing(steps) && |c| == |steps|
    requires 0 <= k && k + 1 < |steps| && steps[k] < step < steps[k + 1]
    ensures mode == Const ==> LookupCurve(steps, mode, logBlend, c, step) == c[k + 1]
    ensures mode == Linear ==>
      var x := (step - steps[k]) as real / (steps[k + 1] - steps[k]) as real;
      && 0.0 < x < 1.0
      && LookupCurve(steps, mode, logBlend, c, step) == c[k] * (1.0 - x) + c[k + 1] * x
      && Min(c[k], c[k + 1]) <= LookupCurve(steps, mode, logBlend, c, step) <= Max(c[k], c[k + 1])
  {
    IndicesBetween(steps, k, step);
    FractionBetween(steps, k, step);
    var x := Fraction(steps, k, k + 1, step);
    BlendBetween(c[k], c[k + 1], x);
  }

  /** The fraction of the way from breakpoint `k` to `k + 1`. */
  lemma FractionBetween(steps: seq<int>, k: int, step: int)
    requires 0 <= k && k + 1 < |steps| && steps[k] < step < steps[k + 1]
    ensures Fraction(steps, k, k + 1, step) == (step - steps[k]) as real / (steps[k + 1] - steps[k]) as real
    ensures 0.0 < Fraction(steps, k, k + 1, step) < 1.0
  {
    var num := (step - steps[k]) as real;
    var den := (steps[k + 1] - steps[k]) as real;
    assert 0.0 < num < den;
  }

  // ---------------------------------------------------------------------
  // Which curve a name reads

  /** `WithCurve(t, v, c)` changes exactly the curves that read the same
      slot as `v`. */
  lemma CurveAfterWithCurve(t: Table, v: string, c: seq<real>, w: string)
    requires WellShaped(t) && |c| == |t.steps|
    ensures Curve(WithCurve(t, v, c), w)
            == if IndexOf(t.variables, w) == IndexOf(t.variables, v) then c else Curve(t, w)
  {
  }

  /** Creating `v` on the way gives it a copy of the curve it read before, so
      no name reads a different curve. */
  lemma TunedReadsAlike(t: Table, v: string, w: string)
    requires WellShaped(t)
    ensures Curve(Tuned(t, v), w) == Curve(t, w)
  {
    if t.createNonexisting && v !in t.variables {
      if w == v {
        IndexOfAppended(t.variables, v);
      } else if w in t.variables {
        var i := IndexOf(t.variables, w);
        assert (t.variables + [v])[i] == w;
        assert forall k :: 0 <= k < i ==> (t.variables + [v])[k] == t.variables[k];
      } else {
        assert w !in t.variables + [v];
      }
    }
  }

  // ---------------------------------------------------------------------
  // Tuning

  /** The ways `update_threshold` ends without touching the table. */
  lemma UpdateUnchanged(t: Table, roundUp: real -> real, logBlend: (real, real, real) -> real,
                        v: string, step: int, value: real)
    requires WellShaped(t)
    ensures |t.steps| == 0 ==> Update(t, roundUp, logBlend, v, step, value) == (t, Raised(IndexError))
    ensures |t.steps| > 0 && value * t.increaseFactor <= 0.0 ==>
              Update(t, roundUp, logBlend, v, step, value) == (t, Raised(ValueError))
    ensures |t.steps| > 0 && value * t.increaseFactor > 0.0 && value <= Lookup(t, logBlend, v, step) ==>
              Update(t, roundUp, logBlend, v, step, value) == (t, Done)
  {
  }

  /** Whether a call changes the table: a non-empty table, a positive
      `value * increase_factor`, and a value above the current tolerance. */
  predicate Changes(t: Table, roundUp: real -> real, logBlend: (real, real, real) -> real,
                    v: string, step: int, value: real)
    requires WellShaped(t)
  {
    |t.steps| > 0 && ComputeThreshold(roundUp, t.increaseFactor, value).Some?
    && value > Lookup(t, logBlend, v, step)
  }

  /** `update_threshold` rewrites at most the slot `v` reads (in the
      table with `v` created if that applies): every name reading another
      slot reads the same curve as before. */
  lemma UpdateShape(t: Table, roundUp: real -> real, logBlend: (real, real, real) -> real,
                    v: string, step: int, value: real, w: string)
    requires WellShaped(t)
    ensures !Changes(t, roundUp, logBlend, v, step, value) ==>
              Update(t, roundUp, logBlend, v, step, value).0 == t
    ensures Changes(t, roundUp, logBlend, v, step, value) ==>
              var t1 := Tuned(t, v);
              var c := Retune(t, roundUp, logBlend, Curve(t1, v), step, value).0;
              Curve(Update(t, roundUp, logBlend, v, step, value).0, w)
                == if IndexOf(t1.variables, w) == IndexOf(t1.variables, v) then c else Curve(t, w)
  {
    if Changes(t, roundUp, logBlend, v, step, value) {
      var t1 := Tuned(t, v);
      var c := Retune(t, roundUp, logBlend, Curve(t1, v), step, value).0;
      TunedReadsAlike(t, v, w);
      CurveAfterWithCurve(t1, v, c, w);
    }
  }

  /** Writing a larger value at `k` and raising the rest to it lifts the
      curve pointwise and keeps the values before `k`. */
  lemma RaiseFromLifts(c: seq<real>, k: int, x: real)
    requires 0 <= k < |c| && x >= c[k]
    ensures var r := RaiseFrom(c[k := x], k);
            && (forall i :: 0 <= i < |c| ==> r[i] >= c[i])
            && (forall i :: 0 <= i < k ==> r[i] == c[i])
  {
  }

  /** Retuning a curve whose tolerance at `step` is below `value` lifts it
      pointwise and keeps the values before `imax`. */
  lemma RetuneRises(t: Table, roundUp: real -> real, logBlend: (real, real, real) -> real,
                    c: seq<real>, step: int, value: real)
    requires |t.steps| > 0 && |c| == |t.steps| && RoundsUp(roundUp) && t.increaseFactor >= 1.0
    requires value > LookupCurve(t.steps, t.mode, logBlend, c, step)
    ensures var r := Retune(t, roundUp, logBlend, c, step, value);
            var hi := Indices(t.steps, step).1;
            && (forall i :: 0 <= i < |c| ==> r.0[i] >= c[i])
            && (forall i :: 0 <= i < hi ==> r.0[i] == c[i])
  {
    var (lo, hi) := Indices(t.steps, step);
    var inc := t.increaseFactor;
    var r := Retune(t, roundUp, logBlend, c, step, value);
    var top := NewTop(t, logBlend, c, step, value);
    if r.1 == Done {
      assert top >= c[hi] by {
        if t.steps[lo] == t.steps[hi] {
          assert LookupCurve(t.steps, t.mode, logBlend, c, step) == c[hi];
        }
      }
      assert ComputeThreshold(roundUp, inc, top).Some?;
      assert top * inc > 0.0;
      assert top > 0.0;
      AtLeastOnce(top, inc);
      var x := ComputeThreshold(roundUp, inc, top).value;
      RoundedAtLeast(x, top, inc);
      assert !(t.steps[lo] != t.steps[hi] &&
               Interpolate(t.mode, logBlend, c[lo], c[hi], Fraction(t.steps, lo, hi, step)) == 0.0);
      assert r.0 == RaiseFrom(c[hi := x], hi);
      RaiseFromLifts(c, hi, x);
    } else if r.0 != c {
      assert r.0 == c[hi := top];
      assert top >= c[hi] by {
        if t.steps[lo] == t.steps[hi] {
          assert LookupCurve(t.steps, t.mode, logBlend, c, step) == c[hi];
        }
      }
    }
  }

  lemma RoundedAtLeast(x: real, top: real, factor: real)
    requires top > 0.0 && factor >= 1.0 && x >= top * factor
    ensures x >= top
  {
    AtLeastOnce(top, factor);
  }

  lemma AtLeastOnce(x: real, factor: real)
    requires x > 0.0 && factor >= 1.0
    ensures x * factor >= x
  {
    assert x * (factor - 1.0) >= 0.0;
  }

  /** A retuned curve that came through is non-decreasing from `imax` on,
      as far as the new `imax` value goes. */
  lemma RetuneTail(t: Table, roundUp: real -> real, logBlend: (real, real, real) -> real,
                   c: seq<real>, step: int, value: real)
    requires |t.steps| > 0 && |c| == |t.steps|
    requires Retune(t, roundUp, logBlend, c, step, value).1 == Done
    ensures var r := Retune(t, roundUp, logBlend, c, step, value).0;
            var (_, hi) := Indices(t.steps, step);
            forall i :: hi <= i < |r| ==> r[i] >= r[hi]
  {
  }

  /** Tuning never lowers a stored value, and never touches a value at a
      breakpoint before `imax`, whatever the outcome. */
  lemma UpdateNeverLowers(t: Table, roundUp: real -> real, logBlend: (real, real, real) -> real,
                          v: string, step: int, value: real, w: string)
    requires WellShaped(t) && |t.steps| > 0 && RoundsUp(roundUp) && t.increaseFactor >= 1.0
    ensures var r := Update(t, roundUp, logBlend, v, step, value);
            var (_, hi) := Indices(t.steps, step);
            && (forall i :: 0 <= i < |t.steps| ==> Curve(r.0, w)[i] >= Curve(t, w)[i])
            && (forall i :: 0 <= i < hi ==> Curve(r.0, w)[i] == Curve(t, w)[i])
  {
    UpdateShape(t, roundUp, logBlend, v, step, value, w);
    if Changes(t, roundUp, logBlend, v, step, value) {
      var t1 := Tuned(t, v);
      var c := Curve(t1, v);
      TunedReadsAlike(t, v, v);
      TunedReadsAlike(t, v, w);
      RetuneRises(t, roundUp, logBlend, c, step, value);
    }
  }

  /** After a call that changed the table, every value from `imax` on is at
      least the new value at `imax`. */
  lemma UpdateTailAtLeast(t: Table, roundUp: real -> real, logBlend: (real, real, real) -> real,
                          v: string, step: int, value: real)
    requires WellShaped(t) && Changes(t, roundUp, logBlend, v, step, value)
    requires Update(t, roundUp, logBlend, v, step, value).1 == Done
    ensures var c := Curve(Update(t, roundUp, logBlend, v, step, value).0, v);
            var (_, hi) := Indices(t.steps, step);
            forall i :: hi <= i < |c| ==> c[i] >= c[hi]
  {
    UpdateShape(t, roundUp, logBlend, v, step, value, v);
    RetuneTail(t, roundUp, logBlend, Curve(Tuned(t, v), v), step, value);
  }

  /** At a breakpoint, a value above the stored one is replaced by
      `__compute_threshold(value)`, which is at least
      `value * increase_factor`. */
  lemma UpdateAtBreakpoint(t: Table, roundUp: real -> real, logBlend: (real, real, real) -> real,
                           v: string, k: int, value: real)
    requires WellShaped(t) && Increasing(t.steps) && 0 <= k < |t.steps| && RoundsUp(roundUp)
    requires value * t.increaseFactor > 0.0 && value > Curve(t, v)[k]
    ensures var r := Update(t, roundUp, logBlend, v, t.steps[k], value);
            && r.1 == Done
            && Curve(r.0, v)[k] == roundUp(value * t.increaseFactor)
            && Curve(r.0, v)[k] >= value * t.increaseFactor
  {
    LookupAtBreakpoint(t, logBlend, v, k);
    assert Changes(t, roundUp, logBlend, v, t.steps[k], value);
    TunedReadsAlike(t, v, v);
    var c1 := Curve(Tuned(t, v), v);
    RetuneAtBreakpoint(t, roundUp, logBlend, c1, k, value);
    UpdateShape(t, roundUp, logBlend, v, t.steps[k], value, v);
  }

  /** At a breakpoint the retune writes the rounded-up `value *
      increase_factor` there and completes. */
  lemma RetuneAtBreakpoint(t: Table, roundUp: real -> real, logBlend: (real, real, real) -> real,
                           c: seq<real>, k: int, value: real)
    requires Increasing(t.steps) && 0 <= k < |t.steps| && |c| == |t.steps|
    requires value * t.increaseFactor > 0.0
    ensures Retune(t, roundUp, logBlend, c, t.steps[k], value).1 == Done
    ensures Retune(t, roundUp, logBlend, c, t.steps[k], value).0[k] == roundUp(value * t.increaseFactor)
  {
    var x := roundUp(value * t.increaseFactor);
    assert ComputeThreshold(roundUp, t.increaseFactor, value) == Some(x);
    IndicesAtBreakpoint(t.steps, k);
    assert NewTop(t, logBlend, c, t.steps[k], value) == value;
    assert Retune(t, roundUp, logBlend, c, t.steps[k], value).0 == RaiseFrom(c[k := x], k);
  }

  /** In const mode a call that changed the table leaves a tolerance at
      `step` that admits `value * increase_factor`. */
  lemma UpdateConstAdmits(t: Table, roundUp: real -> real, logBlend: (real, real, real) -> real,
                          v: string, step: int, value: real)
    requires WellShaped(t) && RoundsUp(roundUp) && t.mode == Const && t.increaseFactor > 0.0
    requires Changes(t, roundUp, logBlend, v, step, value)
    requires Update(t, roundUp, logBlend, v, step, value).1 == Done
    ensures Lookup(Update(t, roundUp, logBlend, v, step, value).0, logBlend, v, step) >= value * t.increaseFactor
  {
    var t1 := Tuned(t, v);
    var c := Curve(t1, v);
    UpdateShape(t, roundUp, logBlend, v, step, value, v);
    TunedReadsAlike(t, v, v);
    RetuneConstAdmits(t, roundUp, logBlend, c, step, value);
  }

  /** The const-mode core of `UpdateConstAdmits`: the retuned curve read at
      `imax` is at least `value * increase_factor`. */
  lemma RetuneConstAdmits(t: Table, roundUp: real -> real, logBlend: (real, real, real) -> real,
                          c: seq<real>, step: int, value: real)
    requires |t.steps| > 0 && |c| == |t.steps| && RoundsUp(roundUp)
    requires t.mode == Const && t.increaseFactor > 0.0
    requires Retune(t, roundUp, logBlend, c, step, value).1 == Done
    ensures var r := Retune(t, roundUp, logBlend, c, step, value).0;
            LookupCurve(t.steps, t.mode, logBlend, r, step) >= value * t.increaseFactor
  {
    var (lo, hi) := Indices(t.steps, step);
    var inc := t.increaseFactor;
    var top := NewTop(t, logBlend, c, step, value);
    assert t.steps[lo] != t.steps[hi] ==> c[hi] != 0.0;
    ConstNewTop(t, logBlend, c, step, value, lo, hi);
    var x := ComputeThreshold(roundUp, inc, top).value;
    ScaledUp(top, value, inc);
    var r := RaiseFrom(c[hi := x], hi);
    assert Retune(t, roundUp, logBlend, c, step, value).0 == r;
    assert LookupCurve(t.steps, t.mode, logBlend, r, step) == r[hi];
  }

  /** In const mode the value written before rounding is at least `value`. */
  lemma ConstNewTop(t: Table, logBlend: (real, real, real) -> real, c: seq<real>, step: int, value: real,
                    lo: int, hi: int)
    requires |t.steps| > 0 && |c| == |t.steps| && t.mode == Const
    requires (lo, hi) == Indices(t.steps, step)
    requires t.steps[lo] != t.steps[hi] ==> c[hi] != 0.0
    ensures NewTop(t, logBlend, c, step, value) >= value
  {
    if t.steps[lo] != t.steps[hi] {
      assert Interpolate(t.mode, logBlend, c[lo], c[hi], Fraction(t.steps, lo, hi, step)) == c[hi];
      DivCancels(c[hi], value);
    }
  }

  lemma DivCancels(a: real, b: real)
    requires a != 0.0
    ensures Max(a, a * b / a) >= b
  {
    assert a * b / a == b;
  }

  lemma ScaledUp(a: real, b: real, factor: real)
    requires a >= b && factor > 0.0
    ensures a * factor >= b * factor
  {
    assert (a - b) * factor >= 0.0;
  }

  // ---------------------------------------------------------------------
  // Variables

  /** `add_variable` gives a new name a copy of the default curve, leaves a
      known one alone, and changes no other name's curve. */
  lemma AddVariableCopiesDefault(t: Table, v: string, w: string)
    requires WellShaped(t)
    ensures v in AddVariable(t, v).variables
    ensures Curve(AddVariable(t, v), v) == if v in t.variables then Curve(t, v) else t.defaults
    ensures w != v ==> Curve(AddVariable(t, v), w) == Curve(t, w)
    ensures AddVariable(AddVariable(t, v), v) == AddVariable(t, v)
  {
    var s := t.(createNonexisting := true);
    TunedReadsAlike(s, v, w);
    TunedReadsAlike(s, v, v);
  }

  /** Adding a new name and removing it again restores the table. */
  lemma AddThenRemoveVariable(t: Table, v: string)
    requires WellShaped(t) && v !in t.variables
    ensures RemoveVariable(AddVariable(t, v), v) == t
  {
    IndexOfAppended(t.variables, v);
    assert (t.variables + [v])[..|t.variables|] == t.variables;
    assert (t.thresholds + [t.defaults])[..|t.thresholds|] == t.thresholds;
  }

  /** Removing an absent name (the default `*` included, unless a variable
      carries that name) changes nothing. */
  lemma RemoveAbsentVariable(t: Table, v: string)
    requires WellShaped(t) && v !in t.variables
    ensures RemoveVariable(t, v) == t
  {
  }

  // ---------------------------------------------------------------------
  // Default curve and reset

  /** Whether `w` takes part in `update_default_thresholds(dv)`. */
  predicate Folded(w: string, defaultVariable: string)
  {
    w !in ExcludedVariables && w != defaultVariable
  }

  lemma {:induction false} MaxCurvesIsMax(t: Table, acc: seq<real>, names: seq<string>, dv: string, i: int)
    requires WellShaped(t) && |acc| == |t.steps| && 0 <= i < |acc|
    ensures var r := MaxCurves(t, acc, names, dv);
            && r[i] >= acc[i]
            && (forall w :: w in names && Folded(w, dv) ==> r[i] >= Curve(t, w)[i])
            && (r[i] == acc[i] || exists w :: w in names && Folded(w, dv) && r[i] == Curve(t, w)[i])
    decreases |names|
  {
    if |names| > 0 {
      var rest := names[1..];
      assert forall w :: w in names <==> w == names[0] || w in rest;
      if Folded(names[0], dv) {
        var acc' := PointwiseMax(acc, Curve(t, names[0]));
        MaxCurvesIsMax(t, acc', rest, dv, i);
      } else {
        MaxCurvesIsMax(t, acc, rest, dv, i);
      }
    }
  }

  /** `update_default_thresholds(dv)` makes the curve of `dv` the pointwise
      maximum of itself and of every variable that is neither excluded nor
      `dv` itself; every other name reading another slot keeps its curve. */
  lemma UpdateDefaultIsMax(t: Table, dv: string, i: int)
    requires WellShaped(t) && 0 <= i < |t.steps|
    ensures var c := Curve(UpdateDefault(t, dv), dv);
            && c[i] >= Curve(t, dv)[i]
            && (forall w :: w in t.variables && Folded(w, dv) ==> c[i] >= Curve(t, w)[i])
            && (c[i] == Curve(t, dv)[i] ||
                exists w :: w in t.variables && Folded(w, dv) && c[i] == Curve(t, w)[i])
  {
    var acc := Curve(t, dv);
    var m := MaxCurves(t, acc, t.variables, dv);
    CurveAfterWithCurve(t, dv, m, dv);
    MaxCurvesIsMax(t, acc, t.variables, dv, i);
  }

  /** `_set_thresholds_to_zero` zeroes every curve a name reads except the
      curve of a listed excluded variable, and keeps steps and names. */
  lemma ZeroedCurves(t: Table, w: string)
    requires WellShaped(t)
    ensures Zeroed(t).steps == t.steps && Zeroed(t).variables == t.variables
    ensures w in ExcludedVariables && w in t.variables ==> Curve(Zeroed(t), w) == Curve(t, w)
    ensures !(w in ExcludedVariables && w in t.variables) ==> Curve(Zeroed(t), w) == Zeros(|t.steps|)
  {
  }

  /** After a reset every tolerance a non-excluded name reads is 0 in const
      and linear mode. */
  lemma ZeroedLookup(t: Table, logBlend: (real, real, real) -> real, w: string, step: int)
    requires WellShaped(t) && |t.steps| > 0 && w !in ExcludedVariables && t.mode != Log
    ensures Lookup(Zeroed(t), logBlend, w, step) == 0.0
  {
    ZeroedCurves(t, w);
  }

  // ---------------------------------------------------------------------
  // Steps

  /** With a new step, the corrected insertion index is the first
      breakpoint above it. */
  lemma InsertPositionFirstAbove(steps: seq<int>, step: int)
    requires |steps| > 0 && step !in steps
    ensures InsertPosition(steps, step) == FirstAtLeast(steps, step)
  {
    var above := FirstAtLeast(steps, step);
    var below := LastAtMost(steps, step);
    if above < |steps| {
      assert steps[above] > step;
      assert below != above;
    }
  }

  /** The corrected insertion keeps the steps strictly increasing. */
  lemma InsertKeepsIncreasing(steps: seq<int>, step: int)
    requires |steps| > 0 && Increasing(steps) && step !in steps
    ensures Increasing(Insert(steps, InsertPosition(steps, step), step))
  {
    InsertPositionFirstAbove(steps, step);
    var i := InsertPosition(steps, step);
    forall k | i <= k < |steps|
      ensures steps[k] > step
    {
      assert steps[k] >= steps[i] >= step;
    }
    InsertInOrder(steps, i, step);
  }

  /** A value above everything before `i` and below everything from `i` on
      keeps an increasing list increasing when inserted at `i`. */
  lemma InsertInOrder(xs: seq<int>, i: int, x: int)
    requires Increasing(xs) && 0 <= i <= |xs|
    requires forall k :: 0 <= k < i ==> xs[k] < x
    requires forall k :: i <= k < |xs| ==> xs[k] > x
    ensures Increasing(Insert(xs, i, x))
  {
    var s := Insert(xs, i, x);
    assert forall k :: 0 <= k < i ==> s[k] == xs[k];
    assert s[i] == x;
    assert forall k :: i < k < |s| ==> s[k] == xs[k - 1];
  }

  /** As written, a table with one breakpoint gets a later step in front. */
  lemma InsertAsWrittenBreaksOrder()
    ensures InsertPositionAsWritten([3], 5) == 0
    ensures Insert([3], InsertPositionAsWritten([3], 5), 5) == [5, 3]
    ensures !Increasing(Insert([3], InsertPositionAsWritten([3], 5), 5))
  {
    assert FirstAtLeast([3], 5) == 1;
    assert LastAtMost([3], 5) == 0;
    var s := Insert([3], 0, 5);
    assert s[0] == 5 && s[1] == 3;
  }

  /** Inserting a new step and removing it again restores the table. */
  lemma RemoveInsertedStep(t: Table, step: int)
    requires WellShaped(t) && |t.steps| > 0 && step !in t.steps
    ensures RemoveStep(InsertStep(t, step), step) == t
  {
    var (lo, _) := Indices(t.steps, step);
    var i := InsertPosition(t.steps, step);
    var u := InsertStep(t, step);
    IndexOfInserted(t.steps, i, step);
    RemoveStepAt(u, step, i);
    DeleteInserted(t.steps, i, step);
    DeleteInserted(t.defaults, i, t.defaults[lo]);
    forall j | 0 <= j < |t.thresholds|
      ensures Delete(u.thresholds[j], i) == t.thresholds[j]
    {
      DeleteInserted(t.thresholds[j], i, t.thresholds[j][lo]);
    }
  }

  /** `removeStep` of a step found at index `i` deletes column `i`. */
  lemma RemoveStepAt(t: Table, step: int, i: int)
    requires WellShaped(t) && 0 <= i < |t.steps| && IndexOf(t.steps, step) == i
    ensures var r := RemoveStep(t, step);
            && r.steps == Delete(t.steps, i) && r.defaults == Delete(t.defaults, i)
            && |r.thresholds| == |t.thresholds|
            && (forall j :: 0 <= j < |t.thresholds| ==> r.thresholds[j] == Delete(t.thresholds[j], i))
            && r == t.(steps := r.steps, defaults := r.defaults, thresholds := r.thresholds)
  {
  }

  /** `add_step` on an existing step changes nothing. */
  lemma AddExistingStep(t: Table, roundUp: real -> real, logBlend: (real, real, real) -> real, step: int)
    requires WellShaped(t) && step in t.steps
    ensures AddStep(t, roundUp, logBlend, step) == (t, Done)
  {
  }

  /** A run of `update_threshold` calls at one step lifts every curve and
      leaves the values before that step's `imax` alone. */
  lemma {:induction false} UpdateEachNeverLowers(t: Table, roundUp: real -> real, logBlend: (real, real, real) -> real,
                                                 names: seq<string>, xs: seq<real>, step: int, w: string)
    requires WellShaped(t) && |t.steps| > 0 && |names| == |xs| && RoundsUp(roundUp) && t.increaseFactor >= 1.0
    ensures var r := UpdateEach(t, roundUp, logBlend, names, xs, step);
            var (_, hi) := Indices(t.steps, step);
            && (forall i :: 0 <= i < |t.steps| ==> Curve(r.0, w)[i] >= Curve(t, w)[i])
            && (forall i :: 0 <= i < hi ==> Curve(r.0, w)[i] == Curve(t, w)[i])
    decreases |names|
  {
    if |names| > 0 {
      var (t1, out) := Update(t, roundUp, logBlend, names[0], step, xs[0]);
      UpdateNeverLowers(t, roundUp, logBlend, names[0], step, xs[0], w);
      if !out.Raised? {
        UpdateEachNeverLowers(t1, roundUp, logBlend, names[1..], xs[1..], step, w);
      }
    }
  }

  /** `add_step` on a new step inserts it where the steps stay strictly
      increasing, lengthens every curve by one, and restores the increase
      factor unless an exception escaped (then it is left at 1). */
  lemma AddStepShape(t: Table, roundUp: real -> real, logBlend: (real, real, real) -> real, step: int)
    requires WellShaped(t) && Increasing(t.steps) && |t.steps| > 0 && step !in t.steps
    ensures var r := AddStep(t, roundUp, logBlend, step);
            && r.0.steps == Insert(t.steps, FirstAtLeast(t.steps, step), step)
            && Increasing(r.0.steps)
            && |r.0.defaults| == |t.defaults| + 1
            && (forall j :: 0 <= j < |r.0.thresholds| ==> |r.0.thresholds[j]| == |t.steps| + 1)
            && r.0.increaseFactor == (if r.1 == Done then t.increaseFactor else 1.0)
  {
    InsertPositionFirstAbove(t.steps, step);
    InsertKeepsIncreasing(t.steps, step);
  }

  /** `add_step` followed by `removeStep` gives back the steps, leaves every
      value before the new step as it was, and never lowers the values from
      it on (they come back equal when no new breakpoint needed raising the
      rest of its curve). */
  lemma AddThenRemoveStep(t: Table, roundUp: real -> real, logBlend: (real, real, real) -> real,
                          step: int, w: string)
    requires WellShaped(t) && Increasing(t.steps) && |t.steps| > 0 && step !in t.steps
    requires RoundsUp(roundUp)
    ensures var r := RemoveStep(AddStep(t, roundUp, logBlend, step).0, step);
            var pos := FirstAtLeast(t.steps, step);
            && r.steps == t.steps
            && (forall i :: 0 <= i < pos ==> Curve(r, w)[i] == Curve(t, w)[i])
            && (forall i :: 0 <= i < |t.steps| ==> Curve(r, w)[i] >= Curve(t, w)[i])
  {
    var pos := FirstAtLeast(t.steps, step);
    var lo := Indices(t.steps, step).0;
    var a := AddStep(t, roundUp, logBlend, step).0;
    var cw := Curve(t, w);
    AddStepLifts(t, roundUp, logBlend, step, w);
    DeleteOfLifted(cw, pos, cw[lo], Curve(a, w));
    IndexOfInserted(t.steps, pos, step);
    RemoveStepAt(a, step, pos);
    CurveAfterRemoveStep(a, step, pos, w);
    DeleteInserted(t.steps, pos, step);
    var r := RemoveStep(a, step);
    assert r.steps == Delete(a.steps, pos);
    assert Curve(r, w) == Delete(Curve(a, w), pos);
  }

  /** `add_step` inserts the new step at its place with the value of the
      step below (or the first value) in every curve, then lifts values at
      and after it: nothing before it changes and nothing is lowered. */
  lemma AddStepLifts(t: Table, roundUp: real -> real, logBlend: (real, real, real) -> real,
                     step: int, w: string)
    requires WellShaped(t) && Increasing(t.steps) && |t.steps| > 0 && step !in t.steps
    requires RoundsUp(roundUp)
    ensures var a := AddStep(t, roundUp, logBlend, step).0;
            var pos := FirstAtLeast(t.steps, step);
            var cw := Curve(t, w);
            var ins := Insert(cw, pos, cw[Indices(t.steps, step).0]);
            && a.steps == Insert(t.steps, pos, step)
            && |Curve(a, w)| == |ins|
            && (forall i :: 0 <= i < |ins| ==> Curve(a, w)[i] >= ins[i])
            && (forall i :: 0 <= i < pos ==> Curve(a, w)[i] == ins[i])
  {
    InsertPositionFirstAbove(t.steps, step);
    var t0 := t.(increaseFactor := 1.0);
    var u := InsertStep(t0, step);
    IndicesOfInserted(t.steps, step);
    var names := ["*"] + t.variables;
    var xs := seq(|names|, k requires 0 <= k < |names| => Lookup(t, logBlend, names[k], step));
    var a := AddStep(t, roundUp, logBlend, step);
    var t2 := UpdateEach(u, roundUp, logBlend, names, xs, step).0;
    assert Curve(a.0, w) == Curve(t2, w);
    UpdateEachNeverLowers(u, roundUp, logBlend, names, xs, step, w);
    CurveAfterInsertStep(t0, step, w);
  }

  /** In the table with `step` inserted, `step` is its own bracket. */
  lemma IndicesOfInserted(steps: seq<int>, step: int)
    requires Increasing(steps) && |steps| > 0 && step !in steps
    ensures var i := FirstAtLeast(steps, step);
            Indices(Insert(steps, i, step), step) == (i, i)
  {
    InsertPositionFirstAbove(steps, step);
    InsertKeepsIncreasing(steps, step);
    var i := FirstAtLeast(steps, step);
    IndicesAtBreakpoint(Insert(steps, i, step), i);
  }

  /** `__insert_step` inserts into the curve every name reads a copy of its
      value at imin. */
  lemma CurveAfterInsertStep(t: Table, step: int, w: string)
    requires WellShaped(t) && |t.steps| > 0
    ensures var c := Curve(t, w);
            Curve(InsertStep(t, step), w)
              == Insert(c, InsertPosition(t.steps, step), c[Indices(t.steps, step).0])
  {
  }

  /** `removeStep` of a step found at `i` deletes entry `i` of every curve. */
  lemma CurveAfterRemoveStep(t: Table, step: int, i: int, w: string)
    requires WellShaped(t) && 0 <= i < |t.steps| && IndexOf(t.steps, step) == i
    ensures Curve(RemoveStep(t, step), w) == Delete(Curve(t, w), i)
  {
    RemoveStepAt(t, step, i);
  }

  /** Deleting the inserted entry again from a curve that was only lifted,
      and not at all before `pos`, gives a curve equal to the original
      before `pos` and at least it everywhere. */
  lemma DeleteOfLifted(c: seq<real>, pos: int, x: real, d: seq<real>)
    requires 0 <= pos <= |c| && |d| == |c| + 1
    requires forall i :: 0 <= i < |d| ==> d[i] >= Insert(c, pos, x)[i]
    requires forall i :: 0 <= i < pos ==> d[i] == Insert(c, pos, x)[i]
    ensures var e := Delete(d, pos);
            && (forall i :: 0 <= i < pos ==> e[i] == c[i])
            && (forall i :: 0 <= i < |c| ==> e[i] >= c[i])
  {
    var ins := Insert(c, pos, x);
    var e := Delete(d, pos);
    forall i | 0 <= i < |c| ensures e[i] >= c[i] && (i < pos ==> e[i] == c[i]) {
      if i < pos {
        assert e[i] == d[i] && ins[i] == c[i];
      } else {
        assert e[i] == d[i + 1] && ins[i + 1] == c[i];
      }
    }
  }

  // ---------------------------------------------------------------------
  // Dictionary form

  predicate Distinct<T(==)>(xs: seq<T>)
  {
    forall i, j :: 0 <= i < j < |xs| ==> xs[i] != xs[j]
  }

  /** Names that the dictionary form keeps apart: no comma, no reserved key. */
  predicate PlainName(v: string)
  {
    ',' !in v && v !in ReservedKeys
  }

  lemma {:induction false} GroupDistinct(variables: seq<string>, curves: seq<seq<real>>, n: nat)
    requires n <= |variables| <= |curves| && Distinct(curves)
    ensures Group(variables, curves, n) == (variables[..n], curves[..n])
  {
    if n > 0 {
      GroupDistinct(variables, curves, n - 1);
      assert curves[n - 1] !in curves[..n - 1];
      assert variables[..n - 1] + [variables[n - 1]] == variables[..n];
      assert curves[..n - 1] + [curves[n - 1]] == curves[..n];
    }
  }

  lemma SortedGroupNamePlain(v: string)
    requires ',' !in v
    ensures SortedGroupName(v) == v
  {
    SplitWithoutSeparator(v, ',');
    assert SortStrings([v]) == [v];
  }

  lemma {:induction false} PutNew(d: Dict, k: string, v: DictValue)
    requires k !in Keys(d)
    ensures Put(d, k, v) == d + [(k, v)]
  {
    if |d| > 0 {
      assert Keys(d[1..]) == Keys(d)[1..];
      PutNew(d[1..], k, v);
    }
  }

  lemma {:induction false} PutCurvesNew(d: Dict, names: seq<string>, curves: seq<seq<real>>)
    requires |names| == |curves| && Distinct(names)
    requires forall k :: k in names ==> k !in Keys(d)
    ensures PutCurves(d, names, curves)
            == d + seq(|names|, i requires 0 <= i < |names| => (names[i], Reals(curves[i])))
    decreases |names|
  {
    if |names| > 0 {
      PutNew(d, names[0], Reals(curves[0]));
      var d1 := d + [(names[0], Reals(curves[0]))];
      assert Keys(d1) == Keys(d) + [names[0]];
      assert forall k :: k in names[1..] ==> k !in Keys(d1) by {
        forall k | k in names[1..] ensures k !in Keys(d1) {
          var j :| 0 <= j < |names[1..]| && names[1..][j] == k;
          assert names[j + 1] == k && names[0] != k;
        }
      }
      PutCurvesNew(d1, names[1..], curves[1..]);
    }
  }

  function Entries(names: seq<string>, curves: seq<seq<real>>): Dict
    requires |names| == |curves|
  {
    seq(|names|, i requires 0 <= i < |names| => (names[i], Reals(curves[i])))
  }

  lemma EntriesWellTyped(names: seq<string>, curves: seq<seq<real>>)
    requires |names| == |curves| && forall k :: k in names ==> PlainName(k)
    ensures WellTyped(Entries(names, curves))
  {
    var d := Entries(names, curves);
    forall i | 0 <= i < |d| ensures d[i].1.Reals? && d[i].0 != "minval" && d[i].0 != "steps" {
      assert names[i] in names;
    }
  }

  /** Entries under plain names come back unchanged from both versions of
      the `from_dict` loop. */
  lemma {:induction false} ExpandPlainEntries(names: seq<string>, curves: seq<seq<real>>)
    requires |names| == |curves| && forall k :: k in names ==> PlainName(k)
    ensures WellTyped(Entries(names, curves))
    ensures ExpandAsWritten(Entries(names, curves)) == (names, curves)
    ensures Expand(Entries(names, curves)) == (names, curves)
    decreases |names|
  {
    EntriesWellTyped(names, curves);
    var d := Entries(names, curves);
    if |names| > 0 {
      assert d[1..] == Entries(names[1..], curves[1..]);
      assert forall k :: k in names[1..] ==> k in names;
      ExpandPlainEntries(names[1..], curves[1..]);
      assert names[0] in names;
      assert d[0] == (names[0], Reals(curves[0]));
      assert names[0] !in ReservedKeys;
      SplitWithoutSeparator(names[0], ',');
      assert Repeat(names[0], 1) == [names[0]];
      assert Repeat(curves[0], 1) == [curves[0]];
      assert [names[0]] + names[1..] == names;
      assert [curves[0]] + curves[1..] == curves;
    }
  }

  /** An entry under a reserved key is skipped by both loops. */
  lemma ExpandSkipsReserved(e: (string, DictValue), rest: Dict)
    requires WellTyped([e]) && WellTyped(rest) && e.0 in ReservedKeys
    ensures WellTyped([e] + rest)
    ensures ExpandAsWritten([e] + rest) == ExpandAsWritten(rest)
    ensures Expand([e] + rest) == Expand(rest)
  {
    assert ([e] + rest)[1..] == rest;
  }

  lemma ExpandReservedPrefix(d0: Dict, rest: Dict)
    requires WellTyped(d0) && WellTyped(rest) && |d0| == 3
    requires d0[0].0 in ReservedKeys && d0[1].0 in ReservedKeys && d0[2].0 in ReservedKeys
    ensures WellTyped(d0 + rest)
    ensures ExpandAsWritten(d0 + rest) == ExpandAsWritten(rest)
    ensures Expand(d0 + rest) == Expand(rest)
  {
    assert WellTyped([d0[2]]) && WellTyped([d0[1]]) && WellTyped([d0[0]]);
    ExpandSkipsReserved(d0[2], rest);
    ExpandSkipsReserved(d0[1], [d0[2]] + rest);
    ExpandSkipsReserved(d0[0], [d0[1]] + ([d0[2]] + rest));
    assert d0 + rest == [d0[0]] + ([d0[1]] + ([d0[2]] + rest));
  }

  lemma GetPrefix(d0: Dict, rest: Dict, k: string)
    requires k in Keys(d0)
    ensures Get(d0 + rest, k) == Get(d0, k)
  {
    if d0[0].0 != k {
      assert (d0 + rest)[1..] == d0[1..] + rest;
      assert Keys(d0[1..]) == Keys(d0)[1..];
      GetPrefix(d0[1..], rest, k);
    }
  }

  /** With distinct curves and plain names `__compress` groups nothing. */
  lemma CompressDistinct(t: Table)
    requires WellShaped(t) && Distinct(t.thresholds)
    requires forall v :: v in t.variables ==> PlainName(v)
    ensures Compress(t.variables, t.thresholds) == (t.variables, t.thresholds)
  {
    var n := |t.variables|;
    GroupDistinct(t.variables, t.thresholds, n);
    assert t.variables[..n] == t.variables;
    assert t.thresholds[..n] == t.thresholds;
    SortedGroupNamesPlain(t.variables);
  }

  lemma SortedGroupNamesPlain(names: seq<string>)
    requires forall v :: v in names ==> PlainName(v)
    ensures seq(|names|, i requires 0 <= i < |names| => SortedGroupName(names[i])) == names
  {
    forall i | 0 <= i < |names| ensures SortedGroupName(names[i]) == names[i] {
      assert names[i] in names;
      SortedGroupNamePlain(names[i]);
    }
  }

  /** The reserved entries `to_dict` writes first. */
  function Header(t: Table): Dict
  {
    [("minval", Number(t.minval)), ("steps", Ints(t.steps)), ("*", Reals(t.defaults))]
  }

  /** With distinct plain names and distinct curves, `to_dict` is the three
      reserved entries followed by one entry per variable, in order. */
  lemma ToDictDistinct(t: Table)
    requires WellShaped(t) && Distinct(t.variables) && Distinct(t.thresholds)
    requires forall v :: v in t.variables ==> PlainName(v)
    ensures ToDict(t) == Header(t) + Entries(t.variables, t.thresholds)
  {
    CompressDistinct(t);
    assert Keys(Header(t)) == ["minval", "steps", "*"];
    PutCurvesNew(Header(t), t.variables, t.thresholds);
  }

  /** `from_dict` of the reserved entries followed by others takes the
      header fields from the former and the variables from the latter. */
  lemma FromDictHeader(t: Table, e: Dict)
    requires WellTyped(e)
    ensures WellTyped(Header(t) + e)
    ensures FromDict(Header(t) + e)
            == Success(Loaded(t.minval, t.steps, t.defaults, Expand(e).0, Expand(e).1))
    ensures FromDictAsWritten(Header(t) + e)
            == Success(Loaded(t.minval, t.steps, t.defaults, ExpandAsWritten(e).0, ExpandAsWritten(e).1))
  {
    var h := Header(t);
    assert WellTyped(h);
    ExpandReservedPrefix(h, e);
    assert Keys(h) == ["minval", "steps", "*"];
    GetPrefix(h, e, "minval");
    GetPrefix(h, e, "*");
    GetPrefix(h, e, "steps");
    assert Get(h + e, "minval") == Some(Number(t.minval));
    assert Get(h, "*") == Get(h[1..], "*") == Get(h[1..][1..], "*") == Some(Reals(t.defaults));
    assert Get(h + e, "steps") == Some(Ints(t.steps));
  }

  /** `from_dict(to_dict())` restores the data of a table whose variables
      are distinct plain names with pairwise distinct curves (the settings
      go back to their initial values); both versions of the loop agree on
      such a table. */
  lemma DictRoundTrip(t: Table)
    requires WellShaped(t) && Distinct(t.variables) && Distinct(t.thresholds)
    requires forall v :: v in t.variables ==> PlainName(v)
    ensures WellTyped(ToDict(t))
    ensures FromDict(ToDict(t)) == Success(Loaded(t.minval, t.steps, t.defaults, t.variables, t.thresholds))
    ensures FromDictAsWritten(ToDict(t)) == FromDict(ToDict(t))
  {
    ToDictDistinct(t);
    ExpandPlainEntries(t.variables, t.thresholds);
    FromDictHeader(t, Entries(t.variables, t.thresholds));
  }

  /** Two variables `A` and `B` sharing one curve. */
  function SharedCurveTable(): Table
  {
    Loaded(0.0, [1], [0.0], ["A", "B"], [[1.0], [1.0]])
  }

  /** `to_dict` writes the shared curve once, under the group name `A,B`. */
  lemma SharedCurveDict()
    ensures WellShaped(SharedCurveTable())
    ensures ToDict(SharedCurveTable()) == Header(SharedCurveTable()) + [("A,B", Reals([1.0]))]
  {
    var t := SharedCurveTable();
    CompressAB();
    assert Keys(Header(t)) == ["minval", "steps", "*"];
    PutNew(Header(t), "A,B", Reals([1.0]));
  }

  lemma CompressAB()
    ensures Compress(["A", "B"], [[1.0], [1.0]]) == (["A,B"], [[1.0]])
  {
    GroupAB();
    SortedAB();
    CompressOfSortedGroups(["A", "B"], [[1.0], [1.0]], ["A,B"], [[1.0]]);
  }

  /** Groups whose names are already sorted are kept by `__compress`'s
      renaming. */
  lemma CompressOfSortedGroups(vs: seq<string>, cs: seq<seq<real>>, names: seq<string>, gcs: seq<seq<real>>)
    requires |vs| <= |cs| && Group(vs, cs, |vs|) == (names, gcs)
    requires forall i :: 0 <= i < |names| ==> SortedGroupName(names[i]) == names[i]
    ensures Compress(vs, cs) == (names, gcs)
  {
    assert seq(|names|, i requires 0 <= i < |names| => SortedGroupName(names[i])) == names;
  }

  lemma GroupAB()
    ensures Group(["A", "B"], [[1.0], [1.0]], 2) == (["A,B"], [[1.0]])
  {
    var vs, cs := ["A", "B"], [[1.0], [1.0]];
    assert Group(vs, cs, 0) == ([], []);
    assert IndexOf<seq<real>>([], [1.0]) == -1;
    assert Group(vs, cs, 1) == ([] + ["A"], [] + [[1.0]]);
    var g1 := Group(vs, cs, 1);
    assert g1.0 == ["A"] && g1.1 == [[1.0]] && cs[1] == [1.0] && vs[1] == "B";
    assert IndexOf(g1.1, cs[1]) == 0;
    var ab := g1.0[0] + "," + vs[1];
    assert ab == "A,B";
    assert g1.0[0 := ab] == [ab];
  }

  lemma SortedAB()
    ensures SortedGroupName("A,B") == "A,B"
  {
    SplitAB();
    assert StrLess("A", "B");
    assert SortStrings(["B"]) == ["B"];
    assert ["A", "B"][1..] == ["B"];
    assert SortStrings(["A", "B"]) == ["A", "B"];
    assert Join(["A", "B"], ',') == "A,B";
  }

  /** Without group keys the two loops of `from_dict` agree. */
  lemma {:induction false} ExpandAgreesWithoutGroups(d: Dict)
    requires WellTyped(d)
    requires forall i :: 0 <= i < |d| ==> ',' !in d[i].0
    ensures ExpandAsWritten(d) == Expand(d)
  {
    if |d| > 0 {
      ExpandAgreesWithoutGroups(d[1..]);
      SplitWithoutSeparator(d[0].0, ',');
      assert Repeat(d[0].0, 1) == [d[0].0];
    }
  }

  /** So `from_dict` as written loads exactly the corrected table from a
      dictionary none of whose keys names a group. */
  lemma FromDictAgreesWithoutGroups(d: Dict)
    requires WellTyped(d)
    requires forall i :: 0 <= i < |d| ==> ',' !in d[i].0
    ensures FromDictAsWritten(d) == FromDict(d)
  {
    ExpandAgreesWithoutGroups(d);
  }

  /** As written, two variables sharing a curve come back from
      `from_dict(to_dict())` as two entries named after the group, so the
      original names fall back to the default curve. */
  lemma DictRoundTripAsWrittenLosesGroups()
    ensures WellShaped(SharedCurveTable()) && WellTyped(ToDict(SharedCurveTable()))
    ensures var r := FromDictAsWritten(ToDict(SharedCurveTable()));
            && r.Success?
            && r.value.variables == ["A,B", "A,B"]
            && WellShaped(r.value)
            && Curve(r.value, "A") == [0.0]
            && Curve(SharedCurveTable(), "A") == [1.0]
  {
    var t := SharedCurveTable();
    SharedCurveDict();
    ExpandAB();
    FromDictHeader(t, ABDict());
    CurvesAB();
  }

  /** The dictionary entry `to_dict` writes for the shared curve. */
  function ABDict(): Dict
  {
    [("A,B", Reals([1.0]))]
  }

  /** Reading the entry back: as written, the joined key twice; corrected,
      each name once. */
  lemma ExpandAB()
    ensures WellTyped(ABDict())
    ensures ExpandAsWritten(ABDict()) == (["A,B", "A,B"], [[1.0], [1.0]])
    ensures Expand(ABDict()) == (["A", "B"], [[1.0], [1.0]])
  {
    ExpandAsWrittenAB();
    ExpandSplitAB();
  }

  lemma ExpandAsWrittenAB()
    ensures WellTyped(ABDict())
    ensures ExpandAsWritten(ABDict()) == (["A,B", "A,B"], [[1.0], [1.0]])
  {
    var e := ABDict();
    assert WellTyped(e);
    SplitAB();
    assert e[1..] == [] && "A,B" !in ReservedKeys && e[0].0 == "A,B" && e[0].1.reals == [1.0];
    assert ExpandAsWritten(e[1..]) == ([], []);
    assert |Split("A,B", ',')| == 2;
    assert Repeat("A,B", 2) == ["A,B", "A,B"] && Repeat([1.0], 2) == [[1.0], [1.0]];
    assert ["A,B", "A,B"] + [] == ["A,B", "A,B"] && [[1.0], [1.0]] + [] == [[1.0], [1.0]];
  }

  lemma ExpandSplitAB()
    ensures WellTyped(ABDict())
    ensures Expand(ABDict()) == (["A", "B"], [[1.0], [1.0]])
  {
    var e := ABDict();
    assert WellTyped(e);
    SplitAB();
    assert e[1..] == [] && "A,B" !in ReservedKeys && e[0].0 == "A,B" && e[0].1.reals == [1.0];
    assert Expand(e[1..]) == ([], []);
    assert Repeat([1.0], 2) == [[1.0], [1.0]];
    assert ["A", "B"] + [] == ["A", "B"] && [[1.0], [1.0]] + [] == [[1.0], [1.0]];
  }

  /** The curves `A` reads in the table before and after the round trip. */
  lemma CurvesAB()
    ensures var t := SharedCurveTable();
            && Curve(t, "A") == [1.0] && Curve(t, "B") == [1.0]
            && Curve(Loaded(t.minval, t.steps, t.defaults, ["A,B", "A,B"], [[1.0], [1.0]]), "A") == [0.0]
  {
    assert "A" !in ["A,B", "A,B"];
  }

  lemma SplitAB()
    ensures Split("A,B", ',') == ["A", "B"]
  {
    var b, cb, acb := "B", ",B", "A,B";
    assert b[1..] == "" && cb[1..] == b && acb[1..] == cb;
    assert Split("", ',') == [""];
    assert b[0] == 'B' && ['B'] + "" == b;
    assert Split(b, ',') == [b];
    assert Split(cb, ',') == [""] + [b];
    assert Split(acb, ',') == [['A'] + ""] + [b];
    assert ['A'] + "" == "A";
  }

  /** With the split keys, the same table comes back with `A` and `B`
      reading the shared curve again. */
  lemma DictRoundTripKeepsGroups()
    ensures WellShaped(SharedCurveTable()) && WellTyped(ToDict(SharedCurveTable()))
    ensures var t := SharedCurveTable();
            var r := FromDict(ToDict(t));
            && r.Success?
            && r.value == Loaded(t.minval, t.steps, t.defaults, t.variables, t.thresholds)
            && WellShaped(r.value)
            && Curve(r.value, "A") == Curve(t, "A") == [1.0]
            && Curve(r.value, "B") == Curve(t, "B") == [1.0]
  {
    var t := SharedCurveTable();
    SharedCurveDict();
    ExpandAB();
    FromDictHeader(t, ABDict());
    CurvesAB();
  }


  // ---------------------------------------------------------------------
  // Text form

  /** The variable names one `from_str` line declares. */
  function LineNames(line: string): seq<string>
  {
    var parts := Split(line, '=');
    var key := Strip(parts[0]);
    if line == "" || |parts| != 2 || key in ReservedKeys then [] else Split(key, ',')
  }

  /** The variable names a list of `from_str` lines declares, in order. */
  function DeclaredNames(lines: seq<string>): seq<string>
  {
    if |lines| == 0 then [] else LineNames(lines[0]) + DeclaredNames(lines[1..])
  }

  /** The curve a `key = values` line gives its variables. */
  function LineCurve(line: string, readFloat: string -> Option<real>): Option<seq<real>>
  {
    var parts := Split(line, '=');
    if |parts| == 2 then ParseAll(Words(parts[1]), readFloat) else None
  }

  /** Some line of `lines` declares `name` and gives it the curve `c`. */
  predicate LoadedFrom(lines: seq<string>, readFloat: string -> Option<real>, name: string, c: seq<real>)
  {
    exists k :: 0 <= k < |lines| && name in LineNames(lines[k]) && LineCurve(lines[k], readFloat) == Some(c)
  }

  /** A line that loads appends its declared names, each with the line's
      own curve, and leaves the other names and curves alone. */
  lemma LoadLineNames(t: Table, line: string,
                      readFloat: string -> Option<real>, readInt: string -> Option<int>)
    requires |t.variables| == |t.thresholds| && line != ""
    requires LoadLine(t, line, readFloat, readInt).Success?
    ensures var r := LoadLine(t, line, readFloat, readInt).value;
            && r.variables == t.variables + LineNames(line)
            && |r.thresholds| == |r.variables|
            && r.thresholds[..|t.thresholds|] == t.thresholds
            && forall i :: |t.thresholds| <= i < |r.thresholds| ==> LineCurve(line, readFloat) == Some(r.thresholds[i])
  {
  }

  /** A successful `from_str` appends exactly the declared names, in order,
      each paired with a curve. */
  lemma {:induction false} LoadLinesNames(t: Table, lines: seq<string>,
                                          readFloat: string -> Option<real>, readInt: string -> Option<int>)
    requires |t.variables| == |t.thresholds|
    requires LoadLines(t, lines, readFloat, readInt).Success?
    ensures var r := LoadLines(t, lines, readFloat, readInt).value;
            && r.variables == t.variables + DeclaredNames(lines)
            && |r.thresholds| == |r.variables|
    decreases |lines|, 1
  {
    if |lines| > 0 {
      if lines[0] == "" {
        LoadLinesSkip(t, lines, readFloat, readInt);
        LoadLinesNames(t, lines[1..], readFloat, readInt);
      } else {
        LoadLinesNamesFrom(t, lines, readFloat, readInt);
      }
    }
  }

  /** The same, for lines whose first one is not empty. */
  lemma {:induction false} LoadLinesNamesFrom(t: Table, lines: seq<string>,
                                              readFloat: string -> Option<real>, readInt: string -> Option<int>)
    requires |t.variables| == |t.thresholds|
    requires |lines| > 0 && lines[0] != ""
    requires LoadLines(t, lines, readFloat, readInt).Success?
    ensures var r := LoadLines(t, lines, readFloat, readInt).value;
            && r.variables == t.variables + DeclaredNames(lines)
            && |r.thresholds| == |r.variables|
    decreases |lines|, 0
  {
    var t1 := LoadLinesFirst(t, lines, readFloat, readInt);
    LoadLinesNames(t1, lines[1..], readFloat, readInt);
    AppendAssoc(t.variables, LineNames(lines[0]), DeclaredNames(lines[1..]));
  }

  /** A successful `from_str` keeps the curves it starts from, and every
      curve it appends is the curve of a line that declares that name. */
  lemma {:induction false} LoadLinesCurves(t: Table, lines: seq<string>,
                                           readFloat: string -> Option<real>, readInt: string -> Option<int>)
    requires |t.variables| == |t.thresholds|
    requires LoadLines(t, lines, readFloat, readInt).Success?
    ensures var r := LoadLines(t, lines, readFloat, readInt).value;
            && |r.thresholds| == |r.variables| && |t.thresholds| <= |r.thresholds|
            && r.thresholds[..|t.thresholds|] == t.thresholds
            && forall i :: |t.thresholds| <= i < |r.thresholds| ==>
                 LoadedFrom(lines, readFloat, r.variables[i], r.thresholds[i])
    decreases |lines|, 1
  {
    if |lines| > 0 {
      if lines[0] == "" {
        var r := LoadLines(t, lines, readFloat, readInt).value;
        LoadLinesSkip(t, lines, readFloat, readInt);
        LoadLinesCurves(t, lines[1..], readFloat, readInt);
        forall i | |t.thresholds| <= i < |r.thresholds|
          ensures LoadedFrom(lines, readFloat, r.variables[i], r.thresholds[i])
        {
          LoadedFromLater(lines, readFloat, r.variables[i], r.thresholds[i]);
        }
      } else {
        LoadLinesCurvesFrom(t, lines, readFloat, readInt);
      }
    }
  }

  /** The same, for lines whose first one is not empty. */
  lemma {:induction false} LoadLinesCurvesFrom(t: Table, lines: seq<string>,
                                               readFloat: string -> Option<real>, readInt: string -> Option<int>)
    requires |t.variables| == |t.thresholds|
    requires |lines| > 0 && lines[0] != ""
    requires LoadLines(t, lines, readFloat, readInt).Success?
    ensures var r := LoadLines(t, lines, readFloat, readInt).value;
            && |r.thresholds| == |r.variables| && |t.thresholds| <= |r.thresholds|
            && r.thresholds[..|t.thresholds|] == t.thresholds
            && forall i :: |t.thresholds| <= i < |r.thresholds| ==>
                 LoadedFrom(lines, readFloat, r.variables[i], r.thresholds[i])
    decreases |lines|, 0
  {
    var r := LoadLines(t, lines, readFloat, readInt).value;
    var t1 := LoadLinesFirst(t, lines, readFloat, readInt);
    LoadLineNames(t, lines[0], readFloat, readInt);
    LoadLinesCurves(t1, lines[1..], readFloat, readInt);
    LoadLinesNames(t1, lines[1..], readFloat, readInt);
    assert r.variables[..|t1.variables|] == t1.variables;
    assert forall i :: |t.variables| <= i < |t1.variables| ==> t1.variables[i] in LineNames(lines[0]);
    CurvesAppended(lines, readFloat, |t.thresholds|, t1.variables, t1.thresholds, r.variables, r.thresholds);
  }

  /** Curves taken from the first line, followed by curves taken from the
      rest, are all taken from the lines. */
  lemma CurvesAppended(lines: seq<string>, readFloat: string -> Option<real>, n: nat,
                       vars1: seq<string>, curves1: seq<seq<real>>, vars: seq<string>, curves: seq<seq<real>>)
    requires |lines| > 0 && n <= |curves1| == |vars1| <= |curves| == |vars|
    requires curves[..|curves1|] == curves1 && vars[..|vars1|] == vars1
    requires forall i :: n <= i < |vars1| ==> vars1[i] in LineNames(lines[0]) && LineCurve(lines[0], readFloat) == Some(curves1[i])
    requires forall i :: |curves1| <= i < |curves| ==> LoadedFrom(lines[1..], readFloat, vars[i], curves[i])
    ensures forall i :: n <= i < |curves| ==> LoadedFrom(lines, readFloat, vars[i], curves[i])
  {
    forall i | n <= i < |curves|
      ensures LoadedFrom(lines, readFloat, vars[i], curves[i])
    {
      if i < |curves1| {
        assert curves[i] == curves[..|curves1|][i] && vars[i] == vars[..|vars1|][i];
        assert 0 <= 0 < |lines| && vars[i] in LineNames(lines[0]) && LineCurve(lines[0], readFloat) == Some(curves[i]);
      } else {
        LoadedFromLater(lines, readFloat, vars[i], curves[i]);
      }
    }
  }

  lemma LoadedFromLater(lines: seq<string>, readFloat: string -> Option<real>, name: string, c: seq<real>)
    requires |lines| > 0 && LoadedFrom(lines[1..], readFloat, name, c)
    ensures LoadedFrom(lines, readFloat, name, c)
  {
    var k :| 0 <= k < |lines[1..]| && name in LineNames(lines[1..][k]) && LineCurve(lines[1..][k], readFloat) == Some(c);
    assert lines[1..][k] == lines[k + 1];
  }

  lemma AppendAssoc(a: seq<string>, b: seq<string>, c: seq<string>)
    ensures a + b + c == a + (b + c)
  {
  }

  lemma LoadLinesStep(t: Table, lines: seq<string>,
                      readFloat: string -> Option<real>, readInt: string -> Option<int>)
    requires |lines| > 0 && lines[0] != ""
    requires LoadLines(t, lines, readFloat, readInt).Success?
    ensures LoadLine(t, lines[0], readFloat, readInt).Success?
    ensures LoadLines(t, lines, readFloat, readInt)
            == LoadLines(LoadLine(t, lines[0], readFloat, readInt).value, lines[1..], readFloat, readInt)
    ensures DeclaredNames(lines) == LineNames(lines[0]) + DeclaredNames(lines[1..])
  {
  }

  /** `line` is a `from_str` line of the form `key = values` with that
      key. */
  predicate HasKey(line: string, key: string)
  {
    line != "" && |Split(line, '=')| == 2 && Strip(Split(line, '=')[0]) == key
  }

  /** The value part of the last line of `lines` with key `key`, if any. */
  function LastValue(lines: seq<string>, key: string): Option<string>
    decreases |lines|
  {
    if |lines| == 0 then None
    else
      var rest := LastValue(lines[1..], key);
      if rest.Some? then rest
      else if HasKey(lines[0], key) then Some(Split(lines[0], '=')[1])
      else None
  }

  /** `LastValue` is the value of the line with that key that no later
      line overrides, and None exactly when no line has the key. */
  lemma {:induction false} LastValueIsLast(lines: seq<string>, key: string)
    ensures LastValue(lines, key).None? <==> forall k :: 0 <= k < |lines| ==> !HasKey(lines[k], key)
    ensures LastValue(lines, key).Some? ==>
              exists k :: && 0 <= k < |lines| && HasKey(lines[k], key)
                          && LastValue(lines, key).value == Split(lines[k], '=')[1]
                          && forall j :: k < j < |lines| ==> !HasKey(lines[j], key)
    decreases |lines|
  {
    if |lines| > 0 {
      var tail := lines[1..];
      LastValueIsLast(tail, key);
      assert forall j :: 1 <= j < |lines| ==> lines[j] == tail[j - 1];
      if LastValue(tail, key).Some? {
        var k :| && 0 <= k < |tail| && HasKey(tail[k], key)
                 && LastValue(tail, key).value == Split(tail[k], '=')[1]
                 && forall j :: k < j < |tail| ==> !HasKey(tail[j], key);
        assert HasKey(lines[k + 1], key);
      } else if HasKey(lines[0], key) {
        assert LastValue(lines, key).value == Split(lines[0], '=')[1];
      }
    }
  }

  /** One line that loads sets `minval`, `steps` or `*` from its own value
      when it carries that key, and leaves the field alone otherwise. */
  lemma LoadLineFields(t: Table, line: string,
                       readFloat: string -> Option<real>, readInt: string -> Option<int>)
    requires line != "" && LoadLine(t, line, readFloat, readInt).Success?
    ensures var r := LoadLine(t, line, readFloat, readInt).value;
            && (HasKey(line, "minval") ==> readFloat(Split(line, '=')[1]) == Some(r.minval))
            && (!HasKey(line, "minval") ==> r.minval == t.minval)
            && (HasKey(line, "steps") ==> ParseAll(Words(Split(line, '=')[1]), readInt) == Some(r.steps))
            && (!HasKey(line, "steps") ==> r.steps == t.steps)
            && (HasKey(line, "*") ==> ParseAll(Words(Split(line, '=')[1]), readFloat) == Some(r.defaults))
            && (!HasKey(line, "*") ==> r.defaults == t.defaults)
  {
  }

  /** What a successful `from_str` loads besides the names: `minval`,
      `steps` and `*` come from the last line with that key, and keep their
      old values when there is none. */
  lemma {:induction false} LoadLinesFields(t: Table, lines: seq<string>,
                                           readFloat: string -> Option<real>, readInt: string -> Option<int>)
    requires LoadLines(t, lines, readFloat, readInt).Success?
    ensures var r := LoadLines(t, lines, readFloat, readInt).value;
            var m := LastValue(lines, "minval");
            var s := LastValue(lines, "steps");
            var d := LastValue(lines, "*");
            && (m.None? ==> r.minval == t.minval)
            && (m.Some? ==> readFloat(m.value) == Some(r.minval))
            && (s.None? ==> r.steps == t.steps)
            && (s.Some? ==> ParseAll(Words(s.value), readInt) == Some(r.steps))
            && (d.None? ==> r.defaults == t.defaults)
            && (d.Some? ==> ParseAll(Words(d.value), readFloat) == Some(r.defaults))
    decreases |lines|
  {
    if |lines| > 0 {
      if lines[0] == "" {
        assert LoadLines(t, lines, readFloat, readInt) == LoadLines(t, lines[1..], readFloat, readInt);
        LoadLinesFields(t, lines[1..], readFloat, readInt);
      } else {
        LoadLinesStep(t, lines, readFloat, readInt);
        LoadLineFields(t, lines[0], readFloat, readInt);
        var t1 := LoadLine(t, lines[0], readFloat, readInt).value;
        LoadLinesFields(t1, lines[1..], readFloat, readInt);
      }
    }
  }

  /** `from_str` into a new object, whole: the declared names in order,
      each with a curve, and `minval`, `steps` and `*` from their last lines
      (0, no steps and no default when a key never appears). */
  lemma FromTextLoads(text: string, readFloat: string -> Option<real>, readInt: string -> Option<int>)
    requires FromText(text, readFloat, readInt).Success?
    ensures var r := FromText(text, readFloat, readInt).value;
            var lines := Split(text, '\n');
            var m := LastValue(lines, "minval");
            var s := LastValue(lines, "steps");
            var d := LastValue(lines, "*");
            && r.variables == DeclaredNames(lines) && |r.thresholds| == |r.variables|
            && (forall i :: 0 <= i < |r.thresholds| ==> LoadedFrom(lines, readFloat, r.variables[i], r.thresholds[i]))
            && (if m.None? then r.minval == 0.0 else readFloat(m.value) == Some(r.minval))
            && (if s.None? then r.steps == [] else ParseAll(Words(s.value), readInt) == Some(r.steps))
            && (if d.None? then r.defaults == [] else ParseAll(Words(d.value), readFloat) == Some(r.defaults))
  {
    var t := Loaded(0.0, [], [], [], []);
    LoadLinesNames(t, Split(text, '\n'), readFloat, readInt);
    LoadLinesCurves(t, Split(text, '\n'), readFloat, readInt);
    LoadLinesFields(t, Split(text, '\n'), readFloat, readInt);
  }

  /** The table after the first line, which is not empty, of a load that
      succeeds. */
  lemma LoadLinesFirst(t: Table, lines: seq<string>,
                       readFloat: string -> Option<real>, readInt: string -> Option<int>) returns (t1: Table)
    requires |t.variables| == |t.thresholds|
    requires |lines| > 0 && lines[0] != ""
    requires LoadLines(t, lines, readFloat, readInt).Success?
    ensures LoadLine(t, lines[0], readFloat, readInt) == Success(t1)
    ensures LoadLines(t, lines, readFloat, readInt) == LoadLines(t1, lines[1..], readFloat, readInt)
    ensures t1.variables == t.variables + LineNames(lines[0]) && |t1.thresholds| == |t1.variables|
    ensures DeclaredNames(lines) == LineNames(lines[0]) + DeclaredNames(lines[1..])
  {
    LoadLinesStep(t, lines, readFloat, readInt);
    LoadLineNames(t, lines[0], readFloat, readInt);
    t1 := LoadLine(t, lines[0], readFloat, readInt).value;
  }

  /** An empty line is skipped and declares nothing. */
  lemma LoadLinesSkip(t: Table, lines: seq<string>,
                      readFloat: string -> Option<real>, readInt: string -> Option<int>)
    requires |lines| > 0 && lines[0] == ""
    ensures LoadLines(t, lines, readFloat, readInt) == LoadLines(t, lines[1..], readFloat, readInt)
    ensures DeclaredNames(lines) == DeclaredNames(lines[1..])
  {
    assert LineNames(lines[0]) == [];
  }
}
