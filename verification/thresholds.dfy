/** The tolerance table object of `tools/ts_thresholds.py`: the Python
    attributes as mutable fields, each operation a method whose new state
    is the `ThresholdTable` function of the old state (the properties of
    those functions are proved in `ThresholdProps`). */
module TsThresholds {
  import opened Common
  import opened ThresholdTable
  import opened ThresholdProps

  class Thresholds {
    var minval: real
    var steps: seq<int>
    var defaults: seq<real>
    var variables: seq<string>
    var thresholds: seq<seq<real>>
    var mode: Mode
    var createNonexistingVariables: bool
    var digits: int
    var increaseFactor: real
    /** The rounding of `__compute_threshold` (one significant digit, up). */
    const roundUp: real -> real
    /** The log-mode blend of `__interpolate_threshold`. */
    const logBlend: (real, real, real) -> real

    /** The object's state as a value. */
    function Value(): Table
      reads this
    {
      Table(minval, steps, defaults, variables, thresholds, mode,
            createNonexistingVariables, digits, increaseFactor)
    }

    /** Every curve has one value per step, the settings are in the ranges
        their setters enforce, and the rounding never rounds down. */
    ghost predicate Valid()
      reads this
    {
      WellShaped(Value()) && ValidSettings(Value()) && RoundsUp(roundUp)
    }

    /** `__init__` after a successful load of `t` (see `LoadDict` and
        `LoadText`). */
    constructor (t: Table, roundUp: real -> real, logBlend: (real, real, real) -> real)
      ensures Value() == t && this.roundUp == roundUp && this.logBlend == logBlend
    {
      minval, steps, defaults := t.minval, t.steps, t.defaults;
      variables, thresholds := t.variables, t.thresholds;
      mode, createNonexistingVariables := t.mode, t.createNonexisting;
      digits, increaseFactor := t.digits, t.increaseFactor;
      this.roundUp := roundUp;
      this.logBlend := logBlend;
    }

    // -------------------------------------------------------------------
    // Setters

    method SetMinval(x: real)
      modifies this
      ensures Value() == old(Value()).(minval := x)
    {
      minval := x;
    }

    method SetMode(s: string) returns (out: Outcome)
      modifies this
      ensures (Value(), out) == WithMode(old(Value()), s)
    {
      var m := ParseMode(s);
      if m.None? {
        return Raised(ValueError);
      }
      mode := m.value;
      return Done;
    }

    method SetDigits(d: int) returns (out: Outcome)
      modifies this
      ensures (Value(), out) == WithDigits(old(Value()), d)
    {
      if d < 1 || d > 10 {
        return Raised(ValueError);
      }
      digits := d;
      return Done;
    }

    method SetIncreaseFactor(f: real) returns (out: Outcome)
      modifies this
      ensures (Value(), out) == WithIncreaseFactor(old(Value()), f)
    {
      if f < 1.0 || f > 10.0 {
        return Raised(ValueError);
      }
      increaseFactor := f;
      return Done;
    }

    // -------------------------------------------------------------------
    // Variables

    method AddVariable(v: string)
      requires Valid()
      modifies this
      ensures Valid() && Value() == ThresholdTable.AddVariable(old(Value()), v)
    {
      if v in variables {
        return;
      }
      variables := variables + [v];
      thresholds := thresholds + [defaults];
    }

    method RemoveVariable(v: string)
      requires Valid()
      modifies this
      ensures Valid() && Value() == ThresholdTable.RemoveVariable(old(Value()), v)
    {
      var i := IndexOf(variables, v);
      if i < 0 {
        return;
      }
      variables := Delete(variables, i);
      thresholds := Delete(thresholds, i);
    }

    /** `__set_threshold_values` once the length has been checked. */
    method SetThresholdValues(v: string, c: seq<real>)
      requires Valid() && |c| == |steps|
      modifies this
      ensures Valid() && Value() == WithCurve(old(Value()), v, c)
    {
      var i := IndexOf(variables, v);
      if i >= 0 {
        thresholds := thresholds[i := c];
      } else {
        defaults := c;
      }
    }

    /** `__setitem__`. */
    method SetItem(v: string, c: seq<real>) returns (out: Outcome)
      requires Valid()
      modifies this
      ensures Valid() && (Value(), out) == ThresholdTable.SetItem(old(Value()), v, c)
    {
      AddVariable(v);
      if |c| != |steps| {
        return Raised(ValueError);
      }
      SetThresholdValues(v, c);
      return Done;
    }

    // -------------------------------------------------------------------
    // Tuning

    /** `update_threshold(v, step, value)`. */
    method UpdateThreshold(v: string, step: int, value: real) returns (out: Outcome)
      requires Valid()
      modifies this
      ensures Valid()
      ensures (Value(), out) == Update(old(Value()), roundUp, logBlend, v, step, value)
    {
      if |steps| == 0 {
        return Raised(IndexError);
      }
      var current := Lookup(Value(), logBlend, v, step);
      var x := ComputeThreshold(roundUp, increaseFactor, value);
      if x.None? {
        return Raised(ValueError);
      }
      if value <= current {
        return Done;
      }
      ghost var t0 := Value();
      if createNonexistingVariables {
        AddVariable(v);
      }
      assert Value() == Tuned(t0, v);
      var c := Curve(Value(), v);
      RetuneSettings(t0, Value(), roundUp, logBlend, c, step, value);
      var r;
      r, out := Retuned(c, step, value);
      if out == Raised(ZeroDivisionError) {
        WithCurveUnchanged(Value(), v);
        return;
      }
      SetThresholdValues(v, r);
    }

    /** The body of `update_threshold` once `value` exceeds the tolerance:
        rewrite `t[imax]`, round it, and raise every later value to it. */
    method Retuned(c: seq<real>, step: int, value: real) returns (r: seq<real>, out: Outcome)
      requires |steps| > 0 && |c| == |steps|
      ensures (r, out) == Retune(Value(), roundUp, logBlend, c, step, value)
    {
      var (lo, hi) := Indices(steps, step);
      r := c;
      if steps[lo] != steps[hi] {
        var p := Interpolate(mode, logBlend, r[lo], r[hi], Fraction(steps, lo, hi, step));
        if p == 0.0 {
          return r, Raised(ZeroDivisionError);
        }
        r := r[hi := Max(r[hi], r[hi] * value / p)];
      } else {
        r := r[hi := value];
      }
      assert r[hi] == NewTop(Value(), logBlend, c, step, value);
      var y := ComputeThreshold(roundUp, increaseFactor, r[hi]);
      if y.None? {
        return r, Raised(ValueError);
      }
      assert y == ComputeThreshold(roundUp, increaseFactor, NewTop(Value(), logBlend, c, step, value));
      r := RaiseLoop(c[hi := y.value], hi);
      return r, Done;
    }

    /** `update_default_thresholds(dv)`: the curve `dv` reads becomes the
        pointwise maximum of itself and every other non-excluded curve. */
    method UpdateDefaultThresholds(dv: string)
      requires Valid()
      modifies this
      ensures Valid() && Value() == UpdateDefault(old(Value()), dv)
    {
      var values := Curve(Value(), dv);
      ghost var target := MaxCurves(Value(), values, variables, dv);
      var k := 0;
      while k < |variables|
        invariant 0 <= k <= |variables| && |values| == |steps|
        invariant MaxCurves(Value(), values, variables[k..], dv) == target
      {
        var w := variables[k];
        assert variables[k..][0] == w && variables[k..][1..] == variables[k + 1..];
        if !(w in ExcludedVariables || w == dv) {
          var others := Curve(Value(), w);
          ghost var start := values;
          var j := 0;
          while j < |steps|
            invariant 0 <= j <= |steps| == |values|
            invariant forall i :: 0 <= i < |values| ==>
                        values[i] == if i < j then Max(start[i], others[i]) else start[i]
          {
            values := values[j := Max(values[j], others[j])];
            j := j + 1;
          }
          assert values == PointwiseMax(start, others);
        }
        k := k + 1;
      }
      SetThresholdValues(dv, values);
    }

    /** `_set_thresholds_to_zero`. */
    method SetThresholdsToZero()
      requires Valid()
      modifies this
      ensures Valid() && Value() == Zeroed(old(Value()))
    {
      ghost var target := Zeroed(Value());
      var rows := thresholds;
      var i := 0;
      while i < |rows|
        invariant 0 <= i <= |rows| == |thresholds|
        invariant forall k :: 0 <= k < |rows| ==>
                    rows[k] == if k < i then target.thresholds[k] else thresholds[k]
      {
        var row := rows[i];
        var j := 0;
        while j < |row|
          invariant 0 <= j <= |row| == |thresholds[i]|
          invariant forall m :: 0 <= m < |row| ==>
                      row[m] == if m < j && variables[i] !in ExcludedVariables then 0.0 else thresholds[i][m]
        {
          if variables[i] !in ExcludedVariables {
            row := row[j := 0.0];
          }
          j := j + 1;
        }
        assert row == target.thresholds[i];
        rows := rows[i := row];
        i := i + 1;
      }
      var zeros := defaults;
      var j := 0;
      while j < |zeros|
        invariant 0 <= j <= |zeros| == |defaults|
        invariant forall m :: 0 <= m < |zeros| ==> zeros[m] == if m < j then 0.0 else defaults[m]
      {
        zeros := zeros[j := 0.0];
        j := j + 1;
      }
      assert rows == target.thresholds;
      assert zeros == target.defaults;
      thresholds, defaults := rows, zeros;
    }

    // -------------------------------------------------------------------
    // Steps

    /** `__insert_step`, with the insertion index corrected (see
        `InsertPosition`). */
    method InsertStep(step: int)
      requires Valid() && |steps| > 0
      modifies this
      ensures Valid() && Value() == ThresholdTable.InsertStep(old(Value()), step)
    {
      ghost var target := ThresholdTable.InsertStep(Value(), step);
      var (lo, _) := Indices(steps, step);
      var i := InsertPosition(steps, step);
      var rows := thresholds;
      var j := 0;
      while j < |rows|
        invariant 0 <= j <= |rows| == |thresholds|
        invariant forall k :: 0 <= k < |rows| ==>
                    rows[k] == if k < j then target.thresholds[k] else thresholds[k]
      {
        rows := rows[j := Insert(rows[j], i, rows[j][lo])];
        j := j + 1;
      }
      assert rows == target.thresholds;
      steps, defaults, thresholds := Insert(steps, i, step), Insert(defaults, i, defaults[lo]), rows;
    }

    /** `add_step(step)`. */
    method AddStep(step: int) returns (out: Outcome)
      requires Valid()
      modifies this
      ensures Valid()
      ensures (Value(), out) == ThresholdTable.AddStep(old(Value()), roundUp, logBlend, step)
    {
      if step in steps {
        return Done;
      }
      ghost var t := Value();
      var saved := increaseFactor;
      increaseFactor := 1.0;
      assert Value() == t.(increaseFactor := 1.0);
      if |steps| == 0 {
        return Raised(IndexError);
      }
      var names := ["*"] + variables;
      var xs := LookupAll(names, step);
      assert xs == seq(|names|, k requires 0 <= k < |names| => Lookup(t, logBlend, names[k], step)) by {
        forall k | 0 <= k < |names|
          ensures xs[k] == Lookup(t, logBlend, names[k], step)
        {
          LookupSettings(t, Value(), logBlend, names[k], step);
        }
      }
      InsertStep(step);
      ghost var inserted := Value();
      out := UpdateAll(names, xs, step);
      assert (Value(), out) == UpdateEach(inserted, roundUp, logBlend, names, xs, step);
      if out.Raised? {
        return;
      }
      increaseFactor := saved;
    }

    /** The first loop of `add_step`: every curve in `names` read at `step`. */
    method LookupAll(names: seq<string>, step: int) returns (xs: seq<real>)
      requires WellShaped(Value()) && |steps| > 0
      ensures |xs| == |names|
      ensures forall m :: 0 <= m < |names| ==> xs[m] == Lookup(Value(), logBlend, names[m], step)
    {
      xs := [];
      var k := 0;
      while k < |names|
        invariant 0 <= k <= |names| && |xs| == k
        invariant forall m :: 0 <= m < k ==> xs[m] == Lookup(Value(), logBlend, names[m], step)
      {
        xs := xs + [Lookup(Value(), logBlend, names[k], step)];
        k := k + 1;
      }
    }

    /** The second loop of `add_step`: `update_threshold(names[k], step,
        xs[k])` in order, ending at the first exception. */
    method UpdateAll(names: seq<string>, xs: seq<real>, step: int) returns (out: Outcome)
      requires Valid() && |names| == |xs|
      modifies this
      ensures Valid()
      ensures (Value(), out) == UpdateEach(old(Value()), roundUp, logBlend, names, xs, step)
    {
      ghost var whole := UpdateEach(Value(), roundUp, logBlend, names, xs, step);
      var k := 0;
      assert names[k..] == names && xs[k..] == xs;
      while k < |names|
        invariant 0 <= k <= |names| && Valid()
        invariant UpdateEach(Value(), roundUp, logBlend, names[k..], xs[k..], step) == whole
      {
        assert names[k..][1..] == names[k + 1..] && xs[k..][1..] == xs[k + 1..];
        out := UpdateThreshold(names[k], step, xs[k]);
        if out.Raised? {
          return;
        }
        k := k + 1;
      }
      return Done;
    }

    /** `removeStep(step)`. */
    method RemoveStep(step: int)
      requires Valid()
      modifies this
      ensures Valid() && Value() == ThresholdTable.RemoveStep(old(Value()), step)
    {
      ghost var target := ThresholdTable.RemoveStep(Value(), step);
      var i := IndexOf(steps, step);
      if i < 0 {
        return;
      }
      var rows := thresholds;
      var j := 0;
      while j < |variables|
        invariant 0 <= j <= |variables| == |rows| == |thresholds|
        invariant forall k :: 0 <= k < |rows| ==>
                    rows[k] == if k < j then target.thresholds[k] else thresholds[k]
      {
        rows := rows[j := Delete(rows[j], i)];
        j := j + 1;
      }
      assert rows == target.thresholds;
      steps, defaults, thresholds := Delete(steps, i), Delete(defaults, i), rows;
    }

    // -------------------------------------------------------------------
    // Dictionary form

    /** `__compress`: group the variables by equal curve, then sort the
        names inside each group. */
    method Compress() returns (names: seq<string>, curves: seq<seq<real>>)
      requires Valid()
      ensures (names, curves) == ThresholdTable.Compress(variables, thresholds)
    {
      names, curves := [], [];
      var i := 0;
      while i < |variables|
        invariant 0 <= i <= |variables|
        invariant (names, curves) == Group(variables, thresholds, i)
      {
        var j := IndexOf(curves, thresholds[i]);
        if j >= 0 {
          names := names[j := names[j] + "," + variables[i]];
        } else {
          names := names + [variables[i]];
          curves := curves + [thresholds[i]];
        }
        i := i + 1;
      }
      ghost var grouped := names;
      var k := 0;
      while k < |names|
        invariant 0 <= k <= |names| == |grouped|
        invariant forall m :: 0 <= m < |names| ==>
                    names[m] == if m < k then SortedGroupName(grouped[m]) else grouped[m]
      {
        names := names[k := SortedGroupName(names[k])];
        k := k + 1;
      }
      assert names == seq(|grouped|, m requires 0 <= m < |grouped| => SortedGroupName(grouped[m]));
    }

    /** `to_dict`. */
    method ToDict() returns (d: Dict)
      requires Valid()
      ensures d == ThresholdTable.ToDict(Value())
    {
      d := Put([], "minval", Number(minval));
      assert Keys(d) == ["minval"];
      PutNew(d, "steps", Ints(steps));
      d := Put(d, "steps", Ints(steps));
      assert Keys(d) == ["minval", "steps"];
      PutNew(d, "*", Reals(defaults));
      d := Put(d, "*", Reals(defaults));
      assert d == Header(Value());
      var names, curves := Compress();
      ghost var target := PutCurves(d, names, curves);
      assert target == ThresholdTable.ToDict(Value());
      var k := 0;
      assert names[k..] == names && curves[k..] == curves;
      while k < |names|
        invariant 0 <= k <= |names| == |curves|
        invariant PutCurves(d, names[k..], curves[k..]) == target
      {
        assert names[k..][1..] == names[k + 1..] && curves[k..][1..] == curves[k + 1..];
        d := Put(d, names[k], Reals(curves[k]));
        k := k + 1;
      }
      assert names[k..] == [] && curves[k..] == [];
    }
  }

  /** `Lookup` reads only the steps, the mode and the curves of its table. */
  lemma LookupSettings(a: Table, b: Table, logBlend: (real, real, real) -> real, v: string, step: int)
    requires WellShaped(a) && |a.steps| > 0
    requires b == a.(increaseFactor := b.increaseFactor)
    ensures WellShaped(b) && Lookup(a, logBlend, v, step) == Lookup(b, logBlend, v, step)
  {
    assert Curve(a, v) == Curve(b, v);
  }

  /** `Retune` reads only the settings and steps of its table. */
  lemma RetuneSettings(a: Table, b: Table, roundUp: real -> real, logBlend: (real, real, real) -> real,
                       c: seq<real>, step: int, value: real)
    requires SameSettings(a, b) && |a.steps| > 0 && |c| == |a.steps|
    ensures Retune(a, roundUp, logBlend, c, step, value) == Retune(b, roundUp, logBlend, c, step, value)
  {
    assert a.steps == b.steps && a.mode == b.mode && a.increaseFactor == b.increaseFactor;
    var (lo, hi) := Indices(a.steps, step);
    assert NewTop(a, logBlend, c, step, value) == NewTop(b, logBlend, c, step, value);
  }

  /** A curve written back unchanged leaves the table as it was. */
  lemma WithCurveUnchanged(t: Table, v: string)
    requires WellShaped(t)
    ensures WithCurve(t, v, Curve(t, v)) == t
  {
    var i := IndexOf(t.variables, v);
    if i >= 0 {
      assert t.thresholds[i := t.thresholds[i]] == t.thresholds;
    }
  }

  /** `from_dict` into a new object. */
  method LoadDict(d: Dict) returns (r: Result<Table>)
    requires WellTyped(d)
    ensures r == FromDict(d)
  {
    var m := Get(d, "minval");
    var star := Get(d, "*");
    var steps := Get(d, "steps");
    if m.None? || star.None? || steps.None? {
      return Failure(KeyError);
    }
    GetWellTyped(d, "minval");
    GetWellTyped(d, "*");
    GetWellTyped(d, "steps");
    var names, curves := ExpandLoop(d);
    return Success(Loaded(m.value.x, steps.value.ints, star.value.reals, names, curves));
  }

  /** The loop `t[i] = max(t[i], t[k])` over `i >= k`, on a copy. */
  method RaiseLoop(c: seq<real>, k: int) returns (r: seq<real>)
    requires 0 <= k < |c|
    ensures r == RaiseFrom(c, k)
  {
    r := c;
    var i := k;
    while i < |r|
      invariant k <= i <= |r| == |c|
      invariant r[k] == c[k]
      invariant forall j :: 0 <= j < |r| ==> r[j] == (if j < i then RaiseFrom(c, k)[j] else c[j])
    {
      r := r[i := Max(r[i], r[k])];
      i := i + 1;
    }
  }

  /** The key loop of `from_dict`: every non-reserved key contributes
      its comma-separated names, each with the key's curve. */
  method ExpandLoop(d: Dict) returns (names: seq<string>, curves: seq<seq<real>>)
    requires WellTyped(d)
    ensures (names, curves) == Expand(d)
  {
    names, curves := [], [];
    var k := 0;
    assert d[k..] == d;
    assert names + Expand(d).0 == Expand(d).0 && curves + Expand(d).1 == Expand(d).1;
    while k < |d|
      invariant 0 <= k <= |d| && WellTyped(d[k..])
      invariant (names + Expand(d[k..]).0, curves + Expand(d[k..]).1) == Expand(d)
    {
      ExpandStep(d, k);
      var (key, value) := d[k];
      if key !in ReservedKeys {
        var parts := Split(key, ',');
        ghost var names0, curves0 := names, curves;
        names, curves := AppendGroup(names, curves, parts, value.reals);
        ghost var rest := Expand(d[k + 1..]);
        assert names0 + (parts + rest.0) == names + rest.0;
        assert curves0 + (Repeat(value.reals, |parts|) + rest.1) == curves + rest.1;
      }
      k := k + 1;
    }
    assert d[k..] == [];
    assert names + [] == names && curves + [] == curves;
  }

  /** One key of the loop: each of its names with the same curve. */
  method AppendGroup(names0: seq<string>, curves0: seq<seq<real>>, parts: seq<string>, c: seq<real>)
    returns (names: seq<string>, curves: seq<seq<real>>)
    ensures names == names0 + parts && curves == curves0 + Repeat(c, |parts|)
  {
    names, curves := names0, curves0;
    var p := 0;
    while p < |parts|
      invariant 0 <= p <= |parts|
      invariant names == names0 + parts[..p] && curves == curves0 + Repeat(c, p)
    {
      names := names + [parts[p]];
      curves := curves + [c];
      assert parts[..p + 1] == parts[..p] + [parts[p]];
      assert Repeat(c, p + 1) == Repeat(c, p) + [c];
      p := p + 1;
    }
    assert parts[..|parts|] == parts;
  }

  lemma ExpandStep(d: Dict, k: int)
    requires WellTyped(d) && 0 <= k < |d|
    ensures WellTyped(d[k..]) && WellTyped(d[k + 1..])
    ensures var rest := Expand(d[k + 1..]);
            Expand(d[k..])
              == if d[k].0 in ReservedKeys then rest
                 else (Split(d[k].0, ',') + rest.0, Repeat(d[k].1.reals, |Split(d[k].0, ',')|) + rest.1)
  {
    assert d[k..][0] == d[k] && d[k..][1..] == d[k + 1..];
  }

  /** `from_str` into a new object. */
  method LoadText(text: string, readFloat: string -> Option<real>, readInt: string -> Option<int>)
    returns (r: Result<Table>)
    ensures r == FromText(text, readFloat, readInt)
  {
    var lines := Split(text, '\n');
    var t := Loaded(0.0, [], [], [], []);
    ghost var whole := LoadLines(t, lines, readFloat, readInt);
    var k := 0;
    assert lines[k..] == lines;
    while k < |lines|
      invariant 0 <= k <= |lines|
      invariant LoadLines(t, lines[k..], readFloat, readInt) == whole
    {
      assert lines[k..][0] == lines[k] && lines[k..][1..] == lines[k + 1..];
      if lines[k] != "" {
        var next := LoadLine(t, lines[k], readFloat, readInt);
        if next.Failure? {
          return Failure(next.error);
        }
        t := next.value;
      }
      k := k + 1;
    }
    assert lines[k..] == [];
    return Success(t);
  }
}
