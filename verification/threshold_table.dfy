/** The value of a `Thresholds` object (tools/ts_thresholds.py) and the pure
    definition of every operation on it. A table maps each step of a
    simulation to a tolerance, per variable, with a default curve `*` for
    the variables that have none of their own. */
module ThresholdTable {
  import opened Common

  /** Interpolation between two breakpoints. */
  datatype Mode = Const | Linear | Log

  /** Variables that are never zeroed and never folded into the default. */
  const ExcludedVariables: seq<string> := ["CHKDAT"]

  /** The keys of the dictionary form that are not variable names. */
  const ReservedKeys: seq<string> := ["minval", "*", "steps"]

  /** The fields of the object: `defaults` is the `*` curve, and
      `variables[i]` owns the curve `thresholds[i]`. */
  datatype Table = Table(
    minval: real,
    steps: seq<int>,
    defaults: seq<real>,
    variables: seq<string>,
    thresholds: seq<seq<real>>,
    mode: Mode,
    createNonexisting: bool,
    digits: int,
    increaseFactor: real)

  /** Every curve, the default included, holds one value per step. */
  predicate WellShaped(t: Table)
  {
    && |t.defaults| == |t.steps|
    && |t.variables| == |t.thresholds|
    && (forall j :: 0 <= j < |t.thresholds| ==> |t.thresholds[j]| == |t.steps|)
  }

  predicate Increasing(steps: seq<int>)
  {
    forall i, j :: 0 <= i < j < |steps| ==> steps[i] < steps[j]
  }

  /** The ranges the setters of `digits` and `increase_factor` enforce. */
  predicate ValidSettings(t: Table)
  {
    1 <= t.digits <= 10 && 1.0 <= t.increaseFactor <= 10.0
  }

  /** A table as loaded into a new object: the settings take their
      initial values (const mode, 2 digits, increase factor 10). */
  function Loaded(minval: real, steps: seq<int>, defaults: seq<real>,
                  variables: seq<string>, thresholds: seq<seq<real>>): Table
  {
    Table(minval, steps, defaults, variables, thresholds, Const, false, 2, 10.0)
  }

  /** The only property of `__compute_threshold`'s rounding that the model
      relies on: a positive value is never rounded down. */
  ghost predicate RoundsUp(roundUp: real -> real)
  {
    forall x: real :: x > 0.0 ==> roundUp(x) >= x
  }

  // ---------------------------------------------------------------------
  // Settings

  /** The mode names the `mode` setter accepts. */
  function ParseMode(s: string): (r: Option<Mode>)
    ensures r.Some? <==> s in ["const", "linear", "log"]
  {
    if s == "const" then Some(Const)
    else if s == "linear" then Some(Linear)
    else if s == "log" then Some(Log)
    else None
  }

  /** The `mode` setter: ValueError for an unknown name. */
  function WithMode(t: Table, s: string): (r: (Table, Outcome))
    ensures r.1 == Done <==> s in ["const", "linear", "log"]
    ensures r.1.Raised? ==> r == (t, Raised(ValueError))
    ensures r.1 == Done ==> r.0 == t.(mode := r.0.mode)
  {
    match ParseMode(s)
    case None => (t, Raised(ValueError))
    case Some(m) => (t.(mode := m), Done)
  }

  /** The `digits` setter: ValueError outside 1..10. */
  function WithDigits(t: Table, d: int): (r: (Table, Outcome))
    ensures r.1 == Done <==> 1 <= d <= 10
    ensures r.1.Raised? ==> r == (t, Raised(ValueError))
    ensures r.1 == Done ==> r.0 == t.(digits := d)
    ensures ValidSettings(t) ==> ValidSettings(r.0)
  {
    if d < 1 || d > 10 then (t, Raised(ValueError)) else (t.(digits := d), Done)
  }

  /** The `increase_factor` setter: ValueError outside [1, 10]. */
  function WithIncreaseFactor(t: Table, f: real): (r: (Table, Outcome))
    ensures r.1 == Done <==> 1.0 <= f <= 10.0
    ensures r.1.Raised? ==> r == (t, Raised(ValueError))
    ensures r.1 == Done ==> r.0 == t.(increaseFactor := f)
    ensures ValidSettings(t) ==> ValidSettings(r.0)
  {
    if f < 1.0 || f > 10.0 then (t, Raised(ValueError)) else (t.(increaseFactor := f), Done)
  }

  // ---------------------------------------------------------------------
  // Curves

  /** `__get_threshold_values`: the curve of the first entry named `v`,
      or the default curve when there is none. */
  function Curve(t: Table, v: string): (c: seq<real>)
    requires WellShaped(t)
    ensures |c| == |t.steps|
  {
    var i := IndexOf(t.variables, v);
    if i >= 0 then t.thresholds[i] else t.defaults
  }

  /** `__set_threshold_values` with a curve of the right length: replace the
      curve `Curve(t, v)` reads. */
  function WithCurve(t: Table, v: string, c: seq<real>): (r: Table)
    requires WellShaped(t) && |c| == |t.steps|
    ensures WellShaped(r)
  {
    var i := IndexOf(t.variables, v);
    if i >= 0 then t.(thresholds := t.thresholds[i := c]) else t.(defaults := c)
  }

  function PointwiseMax(a: seq<real>, b: seq<real>): (r: seq<real>)
    requires |a| == |b|
    ensures |r| == |a|
  {
    seq(|a|, i requires 0 <= i < |a| => Max(a[i], b[i]))
  }

  function Zeros(n: nat): (r: seq<real>)
    ensures |r| == n
  {
    Repeat(0.0, n)
  }

  // ---------------------------------------------------------------------
  // Lookup

  /** The last index whose step is at most `step` (-1 when none is). */
  function LastAtMost(steps: seq<int>, step: int): (r: int)
    ensures -1 <= r < |steps|
    ensures r >= 0 ==> steps[r] <= step
    ensures forall k :: r < k < |steps| ==> steps[k] > step
  {
    if |steps| == 0 then -1
    else if steps[|steps| - 1] <= step then |steps| - 1
    else LastAtMost(steps[..|steps| - 1], step)
  }

  /** The first index whose step is at least `step` (`|steps|` when none is). */
  function FirstAtLeast(steps: seq<int>, step: int): (r: int)
    ensures 0 <= r <= |steps|
    ensures r < |steps| ==> steps[r] >= step
    ensures forall k :: 0 <= k < r ==> steps[k] < step
  {
    if |steps| == 0 then 0
    else if steps[0] >= step then 0
    else 1 + FirstAtLeast(steps[1..], step)
  }

  /** `__get_indices`: the pair (imin, imax) of breakpoints that bracket
      `step`; both are the nearest end of the table outside it. */
  function Indices(steps: seq<int>, step: int): (r: (int, int))
    requires |steps| > 0
    ensures 0 <= r.0 < |steps| && 0 <= r.1 < |steps|
  {
    var above := FirstAtLeast(steps, step);
    var below := LastAtMost(steps, step);
    assert above == |steps| ==> steps[|steps| - 1] < step;
    var hi := if above < |steps| then above else below;
    var lo := if below >= 0 then below else hi;
    (lo, hi)
  }

  /** Where `step` lies between the breakpoints `lo` and `hi`, as a
      fraction of the distance between them. */
  function Fraction(steps: seq<int>, lo: int, hi: int, step: int): real
    requires 0 <= lo < |steps| && 0 <= hi < |steps| && steps[lo] != steps[hi]
  {
    (step - steps[lo]) as real / (steps[hi] - steps[lo]) as real
  }

  /** `__interpolate_threshold`; log mode is the uninterpreted `logBlend`. */
  function Interpolate(mode: Mode, logBlend: (real, real, real) -> real,
                       y1: real, y2: real, x: real): real
  {
    match mode
    case Const => y2
    case Linear => y1 * (1.0 - x) + y2 * x
    case Log => logBlend(y1, y2, x)
  }

  /** `get_threshold` on one curve. */
  function LookupCurve(steps: seq<int>, mode: Mode, logBlend: (real, real, real) -> real,
                       c: seq<real>, step: int): real
    requires |steps| > 0 && |c| == |steps|
  {
    var (lo, hi) := Indices(steps, step);
    if steps[lo] != steps[hi] then
      Interpolate(mode, logBlend, c[lo], c[hi], Fraction(steps, lo, hi, step))
    else c[hi]
  }

  /** `get_threshold(v, step)`. */
  function Lookup(t: Table, logBlend: (real, real, real) -> real, v: string, step: int): real
    requires WellShaped(t) && |t.steps| > 0
  {
    LookupCurve(t.steps, t.mode, logBlend, Curve(t, v), step)
  }

  /** `get_threshold`: IndexError on a table without steps. */
  function GetThreshold(t: Table, logBlend: (real, real, real) -> real, v: string, step: int): (r: Result<real>)
    requires WellShaped(t)
    ensures r.Failure? <==> |t.steps| == 0
  {
    if |t.steps| == 0 then Failure(IndexError) else Success(Lookup(t, logBlend, v, step))
  }

  // ---------------------------------------------------------------------
  // Tuning

  /** `__compute_threshold(value)`: `value * increase_factor` rounded up
      by `roundUp`; None stands for the ValueError `log10` raises on a
      product that is not positive. */
  function ComputeThreshold(roundUp: real -> real, increaseFactor: real, value: real): (r: Option<real>)
    ensures r.Some? <==> value * increaseFactor > 0.0
    ensures RoundsUp(roundUp) && r.Some? ==> r.value >= value * increaseFactor
  {
    var x := value * increaseFactor;
    if x > 0.0 then Some(roundUp(x)) else None
  }

  /** The loop `t[i] = max(t[i], t[k])` for every `i >= k`. */
  function RaiseFrom(c: seq<real>, k: int): (r: seq<real>)
    requires 0 <= k < |c|
    ensures |r| == |c|
  {
    seq(|c|, i requires 0 <= i < |c| => if i < k then c[i] else Max(c[i], c[k]))
  }

  /** The table whose curve for `v` `update_threshold` rewrites: a new copy
      of the default when unknown variables are created, otherwise the
      table itself (and so the default curve for an unknown `v`). */
  function Tuned(t: Table, v: string): (r: Table)
    requires WellShaped(t)
    ensures WellShaped(r)
  {
    if t.createNonexisting then AddVariable(t, v) else t
  }

  /** Everything but the curves stays as it was. */
  predicate SameSettings(a: Table, b: Table)
  {
    && a.minval == b.minval && a.steps == b.steps && a.mode == b.mode
    && a.createNonexisting == b.createNonexisting && a.digits == b.digits
    && a.increaseFactor == b.increaseFactor
  }

  /** The value `update_threshold` writes at `imax` before rounding it:
      between breakpoints the larger of the stored value and the stored
      value scaled by `value` over the interpolated tolerance `p`, at a
      breakpoint `value` itself. Zero when `p` is zero: the division then
      raises instead. */
  function NewTop(t: Table, logBlend: (real, real, real) -> real, c: seq<real>, step: int, value: real): real
    requires |t.steps| > 0 && |c| == |t.steps|
  {
    var (lo, hi) := Indices(t.steps, step);
    if t.steps[lo] != t.steps[hi] then
      var p := Interpolate(t.mode, logBlend, c[lo], c[hi], Fraction(t.steps, lo, hi, step));
      if p == 0.0 then 0.0 else Max(c[hi], c[hi] * value / p)
    else value
  }

  /** The rewrite of the curve `c` that `update_threshold` makes once
      `value` exceeds the current tolerance: `NewTop` is rounded up by
      `__compute_threshold` into `imax`, and every later value is raised to
      it. The division needs a non-zero interpolated tolerance
      (ZeroDivisionError) and the rounding a positive value (ValueError);
      the curve as far as it got comes with the exception. */
  function Retune(t: Table, roundUp: real -> real, logBlend: (real, real, real) -> real,
                  c: seq<real>, step: int, value: real): (r: (seq<real>, Outcome))
    requires |t.steps| > 0 && |c| == |t.steps|
    ensures |r.0| == |c|
  {
    var (lo, hi) := Indices(t.steps, step);
    var top := NewTop(t, logBlend, c, step, value);
    if t.steps[lo] != t.steps[hi] &&
       Interpolate(t.mode, logBlend, c[lo], c[hi], Fraction(t.steps, lo, hi, step)) == 0.0
    then (c, Raised(ZeroDivisionError))
    else
      var x := ComputeThreshold(roundUp, t.increaseFactor, top);
      if x.None? then (c[hi := top], Raised(ValueError))
      else (RaiseFrom(c[hi := x.value], hi), Done)
  }

  /** `update_threshold(v, step, value)`: the new table and how the call
      ended. It raises IndexError on an empty table and ValueError when
      `value * increase_factor` is not positive, before it changes
      anything; a value at or below the current tolerance changes nothing;
      otherwise the curve `v` reads is retuned. */
  function Update(t: Table, roundUp: real -> real, logBlend: (real, real, real) -> real,
                  v: string, step: int, value: real): (r: (Table, Outcome))
    requires WellShaped(t)
    ensures WellShaped(r.0) && SameSettings(r.0, t)
  {
    if |t.steps| == 0 then (t, Raised(IndexError))
    else if ComputeThreshold(roundUp, t.increaseFactor, value).None? then (t, Raised(ValueError))
    else if value <= Lookup(t, logBlend, v, step) then (t, Done)
    else
      var t1 := Tuned(t, v);
      var (c, out) := Retune(t, roundUp, logBlend, Curve(t1, v), step, value);
      (WithCurve(t1, v, c), out)
  }

  // ---------------------------------------------------------------------
  // Variables

  /** `add_variable(v)`: a known name changes nothing; a new one gets a copy
      of the default curve. */
  function AddVariable(t: Table, v: string): (r: Table)
    requires WellShaped(t)
    ensures WellShaped(r) && SameSettings(r, t) && r.defaults == t.defaults
  {
    if v in t.variables then t
    else t.(variables := t.variables + [v], thresholds := t.thresholds + [t.defaults])
  }

  /** `remove_variable(v)`: drop the first entry named `v`, if any. */
  function RemoveVariable(t: Table, v: string): (r: Table)
    requires WellShaped(t)
    ensures WellShaped(r) && SameSettings(r, t) && r.defaults == t.defaults
  {
    var i := IndexOf(t.variables, v);
    if i < 0 then t
    else t.(variables := Delete(t.variables, i), thresholds := Delete(t.thresholds, i))
  }

  /** `__setitem__(v, c)`: `v` is added first; a curve of the wrong length
      then raises ValueError. */
  function SetItem(t: Table, v: string, c: seq<real>): (r: (Table, Outcome))
    requires WellShaped(t)
    ensures WellShaped(r.0) && SameSettings(r.0, t) && r.0.defaults == t.defaults
  {
    var t1 := AddVariable(t, v);
    if |c| != |t.steps| then (t1, Raised(ValueError)) else (WithCurve(t1, v, c), Done)
  }

  /** `update_default_thresholds`: fold into `acc` the curves of `names`,
      skipping excluded variables and the default variable itself. */
  function MaxCurves(t: Table, acc: seq<real>, names: seq<string>, defaultVariable: string): (r: seq<real>)
    requires WellShaped(t) && |acc| == |t.steps|
    ensures |r| == |acc|
    decreases |names|
  {
    if |names| == 0 then acc
    else if names[0] in ExcludedVariables || names[0] == defaultVariable then
      MaxCurves(t, acc, names[1..], defaultVariable)
    else MaxCurves(t, PointwiseMax(acc, Curve(t, names[0])), names[1..], defaultVariable)
  }

  function UpdateDefault(t: Table, defaultVariable: string): (r: Table)
    requires WellShaped(t)
    ensures WellShaped(r) && SameSettings(r, t) && r.variables == t.variables
  {
    WithCurve(t, defaultVariable, MaxCurves(t, Curve(t, defaultVariable), t.variables, defaultVariable))
  }

  /** `_set_thresholds_to_zero`. */
  function Zeroed(t: Table): (r: Table)
    requires WellShaped(t)
    ensures WellShaped(r) && SameSettings(r, t) && r.variables == t.variables
  {
    t.(thresholds := seq(|t.thresholds|, i requires 0 <= i < |t.thresholds| =>
                           if t.variables[i] in ExcludedVariables then t.thresholds[i]
                           else Zeros(|t.thresholds[i]|)),
       defaults := Zeros(|t.defaults|))
  }

  // ---------------------------------------------------------------------
  // Steps

  /** The index `__insert_step` inserts at, as written: a table with one
      breakpoint always gets the new step in front of it. */
  function InsertPositionAsWritten(steps: seq<int>, step: int): (i: int)
    requires |steps| > 0
    ensures 0 <= i <= |steps|
  {
    var (lo, hi) := Indices(steps, step);
    if lo == hi && lo == 0 then 0
    else if lo == hi && hi == |steps| - 1 then hi + 1
    else hi
  }

  /** The index `__insert_step` evidently means: behind the breakpoint when
      the new step lies beyond the end of the table. */
  function InsertPosition(steps: seq<int>, step: int): (i: int)
    requires |steps| > 0
    ensures 0 <= i <= |steps|
  {
    var (lo, hi) := Indices(steps, step);
    if lo == hi && step > steps[hi] then hi + 1 else hi
  }

  /** For a step not yet in the table, the two indices differ exactly on a
      table of one breakpoint that the step lies beyond. */
  lemma InsertPositionAgrees(steps: seq<int>, step: int)
    requires |steps| > 0 && step !in steps
    ensures InsertPositionAsWritten(steps, step) != InsertPosition(steps, step)
            <==> |steps| == 1 && step > steps[0]
  {
    var above := FirstAtLeast(steps, step);
    var below := LastAtMost(steps, step);
    if above == |steps| {
      assert steps[|steps| - 1] < step;
    }
    if below < 0 {
      assert steps[0] > step;
    }
  }

  /** `__insert_step` (with the corrected index): every curve gets a copy of
      its value at imin. */
  function InsertStep(t: Table, step: int): (r: Table)
    requires WellShaped(t) && |t.steps| > 0
    ensures WellShaped(r) && |r.steps| == |t.steps| + 1 && r.variables == t.variables
  {
    var (lo, _) := Indices(t.steps, step);
    var i := InsertPosition(t.steps, step);
    t.(steps := Insert(t.steps, i, step),
       defaults := Insert(t.defaults, i, t.defaults[lo]),
       thresholds := seq(|t.thresholds|, j requires 0 <= j < |t.thresholds| =>
                           Insert(t.thresholds[j], i, t.thresholds[j][lo])))
  }

  /** `removeStep(step)`: drop that column everywhere, if it exists. */
  function RemoveStep(t: Table, step: int): (r: Table)
    requires WellShaped(t)
    ensures WellShaped(r) && r.variables == t.variables
  {
    var i := IndexOf(t.steps, step);
    if i < 0 then t
    else t.(steps := Delete(t.steps, i),
            defaults := Delete(t.defaults, i),
            thresholds := seq(|t.thresholds|, j requires 0 <= j < |t.thresholds| =>
                                Delete(t.thresholds[j], i)))
  }

  /** The second loop of `add_step`: `update_threshold(names[k], step, xs[k])`
      in order, stopping at the first exception. */
  function UpdateEach(t: Table, roundUp: real -> real, logBlend: (real, real, real) -> real,
                      names: seq<string>, xs: seq<real>, step: int): (r: (Table, Outcome))
    requires WellShaped(t) && |names| == |xs|
    ensures WellShaped(r.0) && SameSettings(r.0, t)
    decreases |names|
  {
    if |names| == 0 then (t, Done)
    else
      var (t1, out) := Update(t, roundUp, logBlend, names[0], step, xs[0]);
      if out.Raised? then (t1, out)
      else UpdateEach(t1, roundUp, logBlend, names[1..], xs[1..], step)
  }

  /** `add_step(step)`: look up every curve at the new step with an increase
      factor of 1, insert the column, and tune the new breakpoints up to the
      looked-up values. The saved increase factor comes back only when no
      exception escapes. */
  function AddStep(t: Table, roundUp: real -> real, logBlend: (real, real, real) -> real,
                   step: int): (r: (Table, Outcome))
    requires WellShaped(t)
    ensures WellShaped(r.0)
  {
    if step in t.steps then (t, Done)
    else if |t.steps| == 0 then (t.(increaseFactor := 1.0), Raised(IndexError))
    else
      var names := ["*"] + t.variables;
      var xs := seq(|names|, k requires 0 <= k < |names| => Lookup(t, logBlend, names[k], step));
      var (t2, out) := UpdateEach(InsertStep(t.(increaseFactor := 1.0), step), roundUp, logBlend, names, xs, step);
      if out.Raised? then (t2, out) else (t2.(increaseFactor := t.increaseFactor), Done)
  }

  // ---------------------------------------------------------------------
  // Dictionary form

  /** A value of the dictionary form: `minval`, the step list, or a curve. */
  datatype DictValue = Number(x: real) | Ints(ints: seq<int>) | Reals(reals: seq<real>)

  /** A Python dict: its entries in insertion order, with distinct keys. */
  type Dict = seq<(string, DictValue)>

  function Keys(d: Dict): (r: seq<string>)
    ensures |r| == |d| && forall i :: 0 <= i < |d| ==> r[i] == d[i].0
  {
    seq(|d|, i requires 0 <= i < |d| => d[i].0)
  }

  /** `d[k]`, None for the KeyError. */
  function Get(d: Dict, k: string): Option<DictValue>
  {
    if |d| == 0 then None else if d[0].0 == k then Some(d[0].1) else Get(d[1..], k)
  }

  /** `d[k] = v`: replaces in place, or appends a new key at the end. */
  function Put(d: Dict, k: string, v: DictValue): (r: Dict)
    ensures |r| >= |d|
  {
    if |d| == 0 then [(k, v)]
    else if d[0].0 == k then [(k, v)] + d[1..]
    else [d[0]] + Put(d[1..], k, v)
  }

  function PutCurves(d: Dict, names: seq<string>, curves: seq<seq<real>>): Dict
    requires |names| == |curves|
    decreases |names|
  {
    if |names| == 0 then d
    else PutCurves(Put(d, names[0], Reals(curves[0])), names[1..], curves[1..])
  }

  /** Python's `==` on two dicts: the same keys with the same values,
      whatever the order. */
  predicate SameDict(a: Dict, b: Dict)
  {
    && (forall k :: k in Keys(a) ==> k in Keys(b) && Get(a, k) == Get(b, k))
    && (forall k :: k in Keys(b) ==> k in Keys(a))
  }

  /** The first loop of `__compress`, over the first `n` entries: each name
      joins the group of the first equal curve, or starts a group. */
  function Group(variables: seq<string>, curves: seq<seq<real>>, n: nat): (r: (seq<string>, seq<seq<real>>))
    requires n <= |variables| <= |curves|
    ensures |r.0| == |r.1|
  {
    if n == 0 then ([], [])
    else
      var (names, cs) := Group(variables, curves, n - 1);
      var j := IndexOf(cs, curves[n - 1]);
      if j >= 0 then (names[j := names[j] + "," + variables[n - 1]], cs)
      else (names + [variables[n - 1]], cs + [curves[n - 1]])
  }

  /** The name of a group with its members in alphabetical order. */
  function SortedGroupName(name: string): string
  {
    Join(SortStrings(Split(name, ',')), ',')
  }

  /** `__compress`: one entry per distinct curve, named by the sorted,
      comma-joined names of the variables that share it. */
  function Compress(variables: seq<string>, curves: seq<seq<real>>): (r: (seq<string>, seq<seq<real>>))
    requires |variables| <= |curves|
    ensures |r.0| == |r.1|
  {
    var (names, cs) := Group(variables, curves, |variables|);
    (seq(|names|, i requires 0 <= i < |names| => SortedGroupName(names[i])), cs)
  }

  /** `to_dict`. */
  function ToDict(t: Table): Dict
    requires WellShaped(t)
  {
    var (names, cs) := Compress(t.variables, t.thresholds);
    PutCurves([("minval", Number(t.minval)), ("steps", Ints(t.steps)), ("*", Reals(t.defaults))], names, cs)
  }

  /** `__eq__`. */
  predicate Equal(a: Table, b: Table)
    requires WellShaped(a) && WellShaped(b)
  {
    SameDict(ToDict(a), ToDict(b))
  }

  /** The values have the types the keys call for (Python does not check
      them). */
  predicate WellTyped(d: Dict)
  {
    forall i :: 0 <= i < |d| ==>
      match d[i].0
      case "minval" => d[i].1.Number?
      case "steps" => d[i].1.Ints?
      case _ => d[i].1.Reals?
  }

  /** The loop of `from_dict`, as written: a key `x` is appended once per
      comma-separated part, but always as the whole key `x`. */
  function ExpandAsWritten(d: Dict): (r: (seq<string>, seq<seq<real>>))
    requires WellTyped(d)
    ensures |r.0| == |r.1|
  {
    if |d| == 0 then ([], [])
    else
      var (k, v) := d[0];
      var (names, cs) := ExpandAsWritten(d[1..]);
      if k in ReservedKeys then (names, cs)
      else
        var n := |Split(k, ',')|;
        (Repeat(k, n) + names, Repeat(v.reals, n) + cs)
  }

  /** The loop of `from_dict` as evidently intended: each comma-separated
      part of a key becomes a variable with that key's curve. */
  function Expand(d: Dict): (r: (seq<string>, seq<seq<real>>))
    requires WellTyped(d)
    ensures |r.0| == |r.1|
  {
    if |d| == 0 then ([], [])
    else
      var (k, v) := d[0];
      var (names, cs) := Expand(d[1..]);
      if k in ReservedKeys then (names, cs)
      else
        var parts := Split(k, ',');
        (parts + names, Repeat(v.reals, |parts|) + cs)
  }

  lemma GetWellTyped(d: Dict, k: string)
    requires WellTyped(d) && Get(d, k).Some?
    ensures k == "minval" ==> Get(d, k).value.Number?
    ensures k == "steps" ==> Get(d, k).value.Ints?
    ensures k != "minval" && k != "steps" ==> Get(d, k).value.Reals?
  {
    if d[0].0 != k {
      GetWellTyped(d[1..], k);
    }
  }

  /** `from_dict` into a new object, as written; KeyError when `minval`,
      `*` or `steps` is missing. */
  function FromDictAsWritten(d: Dict): (r: Result<Table>)
    requires WellTyped(d)
  {
    var m := Get(d, "minval");
    var star := Get(d, "*");
    var steps := Get(d, "steps");
    if m.None? || star.None? || steps.None? then Failure(KeyError)
    else
      GetWellTyped(d, "minval");
      GetWellTyped(d, "*");
      GetWellTyped(d, "steps");
      var (names, cs) := ExpandAsWritten(d);
      Success(Loaded(m.value.x, steps.value.ints, star.value.reals, names, cs))
  }

  /** `from_dict` as evidently intended: group keys are split. */
  function FromDict(d: Dict): (r: Result<Table>)
    requires WellTyped(d)
  {
    var m := Get(d, "minval");
    var star := Get(d, "*");
    var steps := Get(d, "steps");
    if m.None? || star.None? || steps.None? then Failure(KeyError)
    else
      GetWellTyped(d, "minval");
      GetWellTyped(d, "*");
      GetWellTyped(d, "steps");
      var (names, cs) := Expand(d);
      Success(Loaded(m.value.x, steps.value.ints, star.value.reals, names, cs))
  }

  // ---------------------------------------------------------------------
  // Text form

  /** `[float(x) for x in words]` or `[int(x) for x in words]`, None for
      the ValueError: every word is read, and the row fails exactly when
      one word does. */
  function ParseAll<T>(words: seq<string>, read: string -> Option<T>): (r: Option<seq<T>>)
    ensures r.Some? <==> forall k :: 0 <= k < |words| ==> read(words[k]).Some?
    ensures r.Some? ==> |r.value| == |words|
                        && forall k :: 0 <= k < |words| ==> read(words[k]) == Some(r.value[k])
  {
    if |words| == 0 then Some([])
    else
      var rest := ParseAll(words[1..], read);
      assert forall k :: 1 <= k < |words| ==> words[k] == words[1..][k - 1];
      match (read(words[0]), rest)
      case (Some(x), Some(xs)) => Some([x] + xs)
      case _ => None
  }

  /** One non-empty line of `from_str`: it must be `key = values`
      (ValueError otherwise). `minval`, `steps` and `*` set those fields;
      any other key is a comma-separated list of variables that all get the
      line's curve. */
  function LoadLine(t: Table, line: string,
                    readFloat: string -> Option<real>, readInt: string -> Option<int>): (r: Result<Table>)
  {
    var parts := Split(line, '=');
    if |parts| != 2 then Failure(ValueError)
    else
      var key := Strip(parts[0]);
      var value := parts[1];
      if key == "minval" then
        match readFloat(value)
        case None => Failure(ValueError)
        case Some(m) => Success(t.(minval := m))
      else if key == "steps" then
        match ParseAll(Words(value), readInt)
        case None => Failure(ValueError)
        case Some(s) => Success(t.(steps := s))
      else
        match ParseAll(Words(value), readFloat)
        case None => Failure(ValueError)
        case Some(c) =>
          if key == "*" then Success(t.(defaults := c))
          else
            var names := Split(key, ',');
            Success(t.(variables := t.variables + names,
                       thresholds := t.thresholds + Repeat(c, |names|)))
  }

  /** The loop of `from_str`: empty lines are skipped, the first line that
      fails ends the loop with its error. */
  function LoadLines(t: Table, lines: seq<string>,
                     readFloat: string -> Option<real>, readInt: string -> Option<int>): (r: Result<Table>)
    decreases |lines|
  {
    if |lines| == 0 then Success(t)
    else if lines[0] == "" then LoadLines(t, lines[1..], readFloat, readInt)
    else
      match LoadLine(t, lines[0], readFloat, readInt)
      case Failure(e) => Failure(e)
      case Success(t1) => LoadLines(t1, lines[1..], readFloat, readInt)
  }

  /** `from_str` into a new object (`minval` 0 until a `minval` line). */
  function FromText(text: string, readFloat: string -> Option<real>, readInt: string -> Option<int>): Result<Table>
  {
    LoadLines(Loaded(0.0, [], [], [], []), Split(text, '\n'), readFloat, readInt)
  }
}
