/** The legacy YUPRTEST comparator `cmp_` (tools/comp_yuprtest.py): both
    files are stripped of their `#` header, aligned on their first common
    step and then compared line by line, value by value, against a
    tolerance that depends on the step and on whether the variable is `T`.
    Files are given as their token lines; a missing file is `None`. */
module CompYuprtest {
  import opened Common

  // ---------------------------------------------------------------------
  // Numbers

  /** Python's `int(x)` of a finite float: truncation toward zero. */
  function Trunc(x: real): int
  {
    if x >= 0.0 then x.Floor else -((-x).Floor)
  }

  /** `is_not_int(x)`: true for 0.0, and otherwise whenever `int(x)/x`
      is not 1. */
  predicate IsNotInt(x: real)
  {
    if x != 0.0 then (Trunc(x) as real) / x != 1.0 else true
  }

  /** `is_not_int` holds exactly for zero and for the non-integral values. */
  lemma IsNotIntMeaning(x: real)
    ensures IsNotInt(x) <==> x == 0.0 || x.Floor as real != x
  {
    if x != 0.0 {
      var a := Trunc(x) as real;
      if a / x == 1.0 {
        assert a == (a / x) * x;
      }
      if x < 0.0 {
        assert (-x).Floor as real <= -x < (-x).Floor as real + 1.0;
        if x.Floor as real == x {
          assert (-x).Floor == -x.Floor;
        }
      }
    }
  }

  /** `is_num(x)`: the field parses as a float. */
  predicate IsNum(t: Token)
  {
    t.asFloat.Some?
  }

  /** The difference of one numeric field (lines 247-254): absolute when
      `minval` is -1, relative to `n1` when `|n1| > minval`, and in both
      cases only for a value `is_not_int` accepts; otherwise 0. Dividing by
      a zero `n1` raises. */
  function ColumnDiff(minval: real, n1: real, n2: real): (r: Result<real>)
    ensures r.Failure? <==> minval != -1.0 && minval < 0.0 && n1 == 0.0
    ensures r.Failure? ==> r.error == ZeroDivisionError
    ensures r.Success? ==> r.value >= 0.0
    ensures minval == -1.0 && IsNotInt(n1) ==> r == Success(Abs(n1 - n2))
    ensures r.Success? && minval != -1.0 && Abs(n1) > minval && IsNotInt(n1)
            ==> r.value * Abs(n1) == Abs(n1 - n2)
    ensures !IsNotInt(n1) || (minval != -1.0 && Abs(n1) <= minval) ==> r == Success(0.0)
  {
    if minval == -1.0 && IsNotInt(n1) then Success(Abs(n1 - n2))
    else if Abs(n1) > minval && IsNotInt(n1) then
      if n1 == 0.0 then Failure(ZeroDivisionError)
      else
        AbsQuotient(n1 - n2, n1);
        Success(Abs((n1 - n2) / n1))
    else Success(0.0)
  }

  // ---------------------------------------------------------------------
  // Settings and the tolerance window

  /** The arguments of `cmp_` other than the files and the verbosity. */
  datatype Settings = Settings(minval: real, nts: seq<int>, tolTs: seq<real>, tolAs: seq<real>)

  /** Index `i` of `nts` moves the tolerances for `step` (lines 207-209). */
  predicate Hit(s: Settings, step: int, i: int)
  {
    0 <= i < |s.nts| && step >= s.nts[i] && i < |s.tolTs| - 1
  }

  /** The threshold loop of lines 205-211 from index `i` on, starting from
      the tolerances `tol` (for `T`, for the others); a hit whose
      `tol_as[i+1]` does not exist raises IndexError. */
  function Window(s: Settings, step: int, i: nat, tol: (real, real)): Result<(real, real)>
    decreases |s.nts| - i
  {
    if i >= |s.nts| then Success(tol)
    else if Hit(s, step, i) then
      if i + 1 >= |s.tolAs| then Failure(IndexError)
      else Window(s, step, i + 1, (s.tolTs[i + 1], s.tolAs[i + 1]))
    else Window(s, step, i + 1, tol)
  }

  /** The window fails exactly when some hit has no `tol_as[i+1]`. */
  lemma {:induction false} WindowFails(s: Settings, step: int, i: nat, tol: (real, real))
    ensures Window(s, step, i, tol).Failure?
            <==> exists j :: i <= j && Hit(s, step, j) && j + 1 >= |s.tolAs|
    decreases |s.nts| - i
  {
    if i < |s.nts| {
      if Hit(s, step, i) && i + 1 < |s.tolAs| {
        WindowFails(s, step, i + 1, (s.tolTs[i + 1], s.tolAs[i + 1]));
      } else if !Hit(s, step, i) {
        WindowFails(s, step, i + 1, tol);
        if exists j :: i <= j && Hit(s, step, j) && j + 1 >= |s.tolAs| {
          var j :| i <= j && Hit(s, step, j) && j + 1 >= |s.tolAs|;
          assert j != i;
        }
      }
    }
  }

  /** The tolerances are `tol_*[k+1]` for the LAST hit `k`. */
  lemma {:induction false} WindowPicksLastHit(s: Settings, step: int, i: nat, tol: (real, real), k: nat)
    requires Window(s, step, i, tol).Success?
    requires i <= k && Hit(s, step, k)
    requires forall j :: k < j ==> !Hit(s, step, j)
    ensures k + 1 < |s.tolAs| && Window(s, step, i, tol).value == (s.tolTs[k + 1], s.tolAs[k + 1])
    decreases |s.nts| - i
  {
    if i == k {
      assert i + 1 < |s.tolAs|;
      WindowKeepsWithoutHit(s, step, i + 1, (s.tolTs[i + 1], s.tolAs[i + 1]));
    } else if Hit(s, step, i) {
      WindowPicksLastHit(s, step, i + 1, (s.tolTs[i + 1], s.tolAs[i + 1]), k);
    } else {
      WindowPicksLastHit(s, step, i + 1, tol, k);
    }
  }

  /** Without a hit the tolerances stay as they were: the first compared
      step keeps `tol_*[0]`, and a step below every `nts` keeps the
      previous step's tolerances. */
  lemma {:induction false} WindowKeepsWithoutHit(s: Settings, step: int, i: nat, tol: (real, real))
    requires forall j :: i <= j ==> !Hit(s, step, j)
    ensures Window(s, step, i, tol) == Success(tol)
    decreases |s.nts| - i
  {
    if i < |s.nts| {
      WindowKeepsWithoutHit(s, step, i + 1, tol);
    }
  }

  /** The threshold loop itself. */
  method SelectTolerance(s: Settings, step: int, tol: (real, real)) returns (r: Result<(real, real)>)
    ensures r == Window(s, step, 0, tol)
  {
    var tolT, tolA := tol.0, tol.1;
    for i := 0 to |s.nts|
      invariant Window(s, step, i, (tolT, tolA)) == Window(s, step, 0, tol)
    {
      if step >= s.nts[i] {
        if i < |s.tolTs| - 1 {
          tolT := s.tolTs[i + 1];
          if i + 1 >= |s.tolAs| {
            return Failure(IndexError);
          }
          tolA := s.tolAs[i + 1];
        }
      }
    }
    return Success((tolT, tolA));
  }

  // ---------------------------------------------------------------------
  // One line pair

  /** Column `k` of a line pair is numeric in both and its diff exceeds
      `tol`. */
  predicate Exceeds(l1: Line, l2: Line, minval: real, tol: real, k: int)
  {
    && 0 <= k < |l1| && k < |l2| && IsNum(l1[k]) && IsNum(l2[k])
    && var d := ColumnDiff(minval, l1[k].asFloat.value, l2[k].asFloat.value);
       d.Success? && d.value > tol
  }

  ghost function ExceedingColumns(l1: Line, l2: Line, minval: real, tol: real, j: int): set<int>
  {
    set k | j <= k < |l1| && Exceeds(l1, l2, minval, tol, k)
  }

  /** The column loop of lines 241-300 from column `j` on: the number of
      fields numeric in `l1` whose diff exceeds `tol`. `l2` must have a
      float wherever `l1` has one. */
  function ColumnErrors(l1: Line, l2: Line, minval: real, tol: real, j: nat): (r: Result<int>)
    decreases |l1| - j
  {
    if j >= |l1| then Success(0)
    else if !IsNum(l1[j]) then ColumnErrors(l1, l2, minval, tol, j + 1)
    else if j >= |l2| then Failure(IndexError)
    else if !IsNum(l2[j]) then Failure(ValueError)
    else match ColumnDiff(minval, l1[j].asFloat.value, l2[j].asFloat.value)
      case Failure(e) => Failure(e)
      case Success(d) =>
        match ColumnErrors(l1, l2, minval, tol, j + 1)
        case Failure(e) => Failure(e)
        case Success(n) => Success(if d > tol then n + 1 else n)
  }

  /** The count is the number of exceeding columns. */
  lemma {:induction false} ColumnErrorsCount(l1: Line, l2: Line, minval: real, tol: real, j: nat)
    requires ColumnErrors(l1, l2, minval, tol, j).Success?
    ensures ColumnErrors(l1, l2, minval, tol, j).value == |ExceedingColumns(l1, l2, minval, tol, j)|
    decreases |l1| - j
  {
    if j >= |l1| {
      assert ExceedingColumns(l1, l2, minval, tol, j) == {};
    } else {
      ColumnErrorsCount(l1, l2, minval, tol, j + 1);
      ExceedingColumnsStep(l1, l2, minval, tol, j);
    }
  }

  lemma ExceedingColumnsStep(l1: Line, l2: Line, minval: real, tol: real, j: nat)
    requires j < |l1|
    ensures var rest := ExceedingColumns(l1, l2, minval, tol, j + 1);
            && j !in rest
            && ExceedingColumns(l1, l2, minval, tol, j)
               == if Exceeds(l1, l2, minval, tol, j) then rest + {j} else rest
  {
  }

  /** A line compared with itself has no exceeding column, as long as the
      tolerance is not negative and `minval` leaves no division by zero. */
  lemma {:induction false} ColumnErrorsSelf(l: Line, minval: real, tol: real, j: nat)
    requires tol >= 0.0 && (minval == -1.0 || minval >= 0.0)
    ensures ColumnErrors(l, l, minval, tol, j) == Success(0)
    decreases |l| - j
  {
    if j < |l| {
      ColumnErrorsSelf(l, minval, tol, j + 1);
      if IsNum(l[j]) {
        var n := l[j].asFloat.value;
        if n != 0.0 {
          assert (n - n) / n == 0.0;
        }
      }
    }
  }

  /** `c + r`, keeping a raise. */
  function AddTo(c: int, r: Result<int>): Result<int>
  {
    match r
    case Failure(e) => Failure(e)
    case Success(n) => Success(c + n)
  }

  /** The column loop. */
  method CompareColumns(l1: Line, l2: Line, minval: real, tol: real) returns (r: Result<int>)
    ensures r == ColumnErrors(l1, l2, minval, tol, 0)
  {
    var count := 0;
    for j := 0 to |l1|
      invariant AddTo(count, ColumnErrors(l1, l2, minval, tol, j)) == ColumnErrors(l1, l2, minval, tol, 0)
    {
      if IsNum(l1[j]) {
        if j >= |l2| {
          return Failure(IndexError);
        }
        if !IsNum(l2[j]) {
          return Failure(ValueError);
        }
        var d := ColumnDiff(minval, l1[j].asFloat.value, l2[j].asFloat.value);
        if d.Failure? {
          return Failure(d.error);
        }
        if d.value > tol {
          count := count + 1;
        }
      }
    }
    return Success(count);
  }

  // ---------------------------------------------------------------------
  // Header and alignment

  /** `int(l[1])`: IndexError for a line of fewer than two fields,
      ValueError for a step that is not an integer. */
  function StepOf(l: Line): Result<int>
  {
    if |l| < 2 then Failure(IndexError)
    else if l[1].asInt.None? then Failure(ValueError)
    else Success(l[1].asInt.value)
  }

  /** The header loop of lines 113-124 from line `i` on: the first line
      whose first field is not exactly `#`; running off the file or
      meeting a blank line raises IndexError. */
  function SkipHeader(data: seq<Line>, i: nat): (r: Result<nat>)
    ensures r.Success? ==> i <= r.value < |data| && |data[r.value]| > 0 && data[r.value][0].text != "#"
    ensures r.Success? ==> forall k :: i <= k < r.value ==> |data[k]| > 0 && data[k][0].text == "#"
    ensures r.Failure? ==> r.error == IndexError
    decreases |data| - i
  {
    if i >= |data| || |data[i]| == 0 then Failure(IndexError)
    else if data[i][0].text != "#" then Success(i)
    else SkipHeader(data, i + 1)
  }

  /** The header loop. */
  method SkipComments(data: seq<Line>) returns (r: Result<nat>)
    ensures r == SkipHeader(data, 0)
  {
    var i := 0;
    while true
      invariant SkipHeader(data, i) == SkipHeader(data, 0)
      decreases |data| - i
    {
      if i >= |data| || |data[i]| == 0 {
        return Failure(IndexError);
      }
      if data[i][0].text != "#" {
        return Success(i);
      }
      i := i + 1;
    }
  }

  /** The alignment loop of lines 127-145 from cursors `i1`, `i2`: the
      cursor at the smaller step advances until both steps are equal; None
      when a file runs out first. */
  function Align(d1: seq<Line>, d2: seq<Line>, i1: nat, i2: nat): (r: Result<Option<(nat, nat)>>)
    ensures r.Success? && r.value.Some? ==>
              var (j1, j2) := r.value.value;
              && i1 <= j1 < |d1| && i2 <= j2 < |d2|
              && StepOf(d1[j1]).Success? && StepOf(d1[j1]) == StepOf(d2[j2])
    decreases |d1| - i1 + |d2| - i2
  {
    if i1 >= |d1| || i2 >= |d2| then Success(None)
    else match StepOf(d1[i1])
      case Failure(e) => Failure(e)
      case Success(nt1) =>
        match StepOf(d2[i2])
        case Failure(e) => Failure(e)
        case Success(nt2) =>
          if nt1 < nt2 then Align(d1, d2, i1 + 1, i2)
          else if nt1 > nt2 then Align(d1, d2, i1, i2 + 1)
          else Success(Some((i1, i2)))
  }

  /** Two files whose steps agree line by line are aligned where they
      start. */
  lemma AlignSame(d: seq<Line>, i: nat)
    requires i < |d| && StepOf(d[i]).Success?
    ensures Align(d, d, i, i) == Success(Some((i, i)))
  {
  }

  /** From line `lo` on, every line has a step and the steps never
      decrease, as in a YUPRTEST file past its header. */
  predicate StepsAscending(d: seq<Line>, lo: nat)
  {
    && (forall k :: lo <= k < |d| ==> StepOf(d[k]).Success?)
    && (forall a, b :: lo <= a < b < |d| ==> StepOf(d[a]).value <= StepOf(d[b]).value)
  }

  /** On files whose steps ascend, the alignment stops at the first step
      the two files share: no earlier pair of lines on the way has equal
      steps. */
  lemma {:induction false} AlignFindsFirstCommonStep(d1: seq<Line>, d2: seq<Line>, i1: nat, i2: nat, j1: nat, j2: nat)
    requires StepsAscending(d1, i1) && StepsAscending(d2, i2)
    requires Align(d1, d2, i1, i2) == Success(Some((j1, j2)))
    ensures forall k1, k2 :: i1 <= k1 <= j1 && i2 <= k2 <= j2 && (k1 < j1 || k2 < j2)
              ==> StepOf(d1[k1]) != StepOf(d2[k2])
    decreases |d1| - i1 + |d2| - i2
  {
    var nt1 := StepOf(d1[i1]).value;
    var nt2 := StepOf(d2[i2]).value;
    if nt1 < nt2 {
      AlignFindsFirstCommonStep(d1, d2, i1 + 1, i2, j1, j2);
    } else if nt1 > nt2 {
      AlignFindsFirstCommonStep(d1, d2, i1, i2 + 1, j1, j2);
    }
  }

  /** The alignment loop. */
  method AlignSteps(d1: seq<Line>, d2: seq<Line>, a1: nat, a2: nat) returns (r: Result<Option<(nat, nat)>>)
    ensures r == Align(d1, d2, a1, a2)
  {
    var i1: nat, i2: nat := a1, a2;
    while true
      invariant Align(d1, d2, i1, i2) == Align(d1, d2, a1, a2)
      decreases |d1| - i1 + |d2| - i2
    {
      if i1 >= |d1| || i2 >= |d2| {
        return Success(None);
      }
      var nt1 := StepOf(d1[i1]);
      if nt1.Failure? {
        return Failure(nt1.error);
      }
      var nt2 := StepOf(d2[i2]);
      if nt2.Failure? {
        return Failure(nt2.error);
      }
      if nt1.value < nt2.value {
        i1 := i1 + 1;
      } else if nt1.value > nt2.value {
        i2 := i2 + 1;
      } else {
        return Success(Some((i1, i2)));
      }
    }
  }

  // ---------------------------------------------------------------------
  // The main loop

  /** The variables of the main loop that decide the result: the cursors,
      the current step, the tolerances for `T` and for the others, and the
      error count. */
  datatype Cursor = Cursor(i1: nat, i2: nat, ntstep: int, tol: (real, real), count: int)

  /** The tolerance a line is judged by: `tol_t` for `T`, `tol_a` else. */
  function TolFor(name: string, tol: (real, real)): real
  {
    if name == "T" then tol.0 else tol.1
  }

  /** The main loop of lines 153-305 from cursor `c`: -1 as soon as the
      names or the steps of a line pair differ, else the error count at
      the end of either file. */
  function Scan(d1: seq<Line>, d2: seq<Line>, s: Settings, c: Cursor): (r: Result<int>)
    ensures c.count >= 0 && r.Success? ==> r.value == -1 || r.value >= c.count
    decreases |d1| - c.i1
  {
    if c.i1 >= |d1| || c.i2 >= |d2| then Success(c.count)
    else
      var l1 := d1[c.i1];
      var l2 := d2[c.i2];
      match StepOf(l1)
      case Failure(e) => Failure(e)
      case Success(nt) =>
        match (if nt != c.ntstep then Window(s, nt, 0, c.tol) else Success(c.tol))
        case Failure(e) => Failure(e)
        case Success(tol) =>
          if |l2| == 0 then Failure(IndexError)
          else if Strip(l1[0].text) != Strip(l2[0].text) then Success(-1)
          else match StepOf(l2)
            case Failure(e) => Failure(e)
            case Success(nt2) =>
              if nt != nt2 then Success(-1)
              else match ColumnErrors(l1, l2, s.minval, TolFor(l1[0].text, tol), 0)
                case Failure(e) => Failure(e)
                case Success(n) =>
                  ColumnErrorsCount(l1, l2, s.minval, TolFor(l1[0].text, tol), 0);
                  Scan(d1, d2, s, Cursor(c.i1 + 1, c.i2 + 1, nt, tol, c.count + n))
  }

  /** The whole of `cmp_`. */
  function Compare(f1: Option<seq<Line>>, f2: Option<seq<Line>>, s: Settings): (r: Result<int>)
    ensures r.Success? ==> r.value >= -1
    ensures f1.None? || f2.None? ==> r == Success(-1)
    ensures (f1.Some? && f2.Some? && |s.tolTs| > 0 && |s.tolAs| > 0
             && (|f1.value| <= 4 || |f2.value| <= 4)) ==> r == Success(-1)
  {
    if f1.None? || f2.None? then Success(-1)
    else if |s.tolTs| == 0 || |s.tolAs| == 0 then Failure(IndexError)
    else
      var d1 := f1.value;
      var d2 := f2.value;
      if |d1| <= 4 || |d2| <= 4 then Success(-1)
      else match SkipHeader(d1, 0)
        case Failure(e) => Failure(e)
        case Success(h1) =>
          match SkipHeader(d2, 0)
          case Failure(e) => Failure(e)
          case Success(h2) =>
            match Align(d1, d2, h1, h2)
            case Failure(e) => Failure(e)
            case Success(None) => Success(-1)
            case Success(Some((j1, j2))) =>
              Scan(d1, d2, s, Cursor(j1, j2, StepOf(d1[j1]).value, (s.tolTs[0], s.tolAs[0]), 0))
  }

  /** `cmp_` over two files. */
  method Cmp(f1: Option<seq<Line>>, f2: Option<seq<Line>>, s: Settings) returns (r: Result<int>)
    ensures r == Compare(f1, f2, s)
  {
    if f1.None? || f2.None? {
      return Success(-1);
    }
    var data1, data2 := f1.value, f2.value;
    if |s.tolTs| == 0 || |s.tolAs| == 0 {
      return Failure(IndexError);
    }
    var errorCount := 0;
    var tolT, tolA := s.tolTs[0], s.tolAs[0];
    if |data1| <= 4 || |data2| <= 4 {
      return Success(-1);
    }
    var h1 := SkipComments(data1);
    if h1.Failure? {
      return Failure(h1.error);
    }
    var h2 := SkipComments(data2);
    if h2.Failure? {
      return Failure(h2.error);
    }
    var aligned := AlignSteps(data1, data2, h1.value, h2.value);
    if aligned.Failure? {
      return Failure(aligned.error);
    }
    if aligned.value.None? {
      return Success(-1);
    }
    var j1, j2 := aligned.value.value.0, aligned.value.value.1;
    r := ScanLines(data1, data2, s, Cursor(j1, j2, StepOf(data1[j1]).value, (tolT, tolA), errorCount));
  }

  /** The line loop of `cmp`, from cursor `c` on. */
  method ScanLines(data1: seq<Line>, data2: seq<Line>, s: Settings, c: Cursor) returns (r: Result<int>)
    ensures r == Scan(data1, data2, s, c)
  {
    var i1: nat, i2: nat, ntstep, tolT, tolA, errorCount := c.i1, c.i2, c.ntstep, c.tol.0, c.tol.1, c.count;
    while true
      invariant Scan(data1, data2, s, Cursor(i1, i2, ntstep, (tolT, tolA), errorCount)) == Scan(data1, data2, s, c)
      decreases |data1| - i1
    {
      if i1 >= |data1| || i2 >= |data2| {
        return Success(errorCount);
      }
      var l1, l2 := data1[i1], data2[i2];
      var nt := StepOf(l1);
      if nt.Failure? {
        return Failure(nt.error);
      }
      if nt.value != ntstep {
        ntstep := nt.value;
        var w := SelectTolerance(s, ntstep, (tolT, tolA));
        if w.Failure? {
          return Failure(w.error);
        }
        tolT, tolA := w.value.0, w.value.1;
      }
      if |l2| == 0 {
        return Failure(IndexError);
      }
      if Strip(l1[0].text) != Strip(l2[0].text) {
        return Success(-1);
      }
      var nt2 := StepOf(l2);
      if nt2.Failure? {
        return Failure(nt2.error);
      }
      if nt.value != nt2.value {
        return Success(-1);
      }
      var n := CompareColumns(l1, l2, s.minval, TolFor(l1[0].text, (tolT, tolA)));
      if n.Failure? {
        return Failure(n.error);
      }
      errorCount := errorCount + n.value;
      i1, i2 := i1 + 1, i2 + 1;
    }
  }

  // ---------------------------------------------------------------------
  // Comparing a file with itself

  /** Every tolerance the window can pick is not negative. */
  lemma {:induction false} WindowNonNegative(s: Settings, step: int, i: nat, tol: (real, real))
    requires tol.0 >= 0.0 && tol.1 >= 0.0
    requires forall k :: 0 <= k < |s.tolTs| ==> s.tolTs[k] >= 0.0
    requires forall k :: 0 <= k < |s.tolAs| ==> s.tolAs[k] >= 0.0
    requires Window(s, step, i, tol).Success?
    ensures Window(s, step, i, tol).value.0 >= 0.0 && Window(s, step, i, tol).value.1 >= 0.0
    decreases |s.nts| - i
  {
    if i < |s.nts| {
      if Hit(s, step, i) {
        WindowNonNegative(s, step, i + 1, (s.tolTs[i + 1], s.tolAs[i + 1]));
      } else {
        WindowNonNegative(s, step, i + 1, tol);
      }
    }
  }

  /** The main loop over one file against itself only adds zeros. */
  lemma {:induction false} ScanSelf(d: seq<Line>, s: Settings, c: Cursor)
    requires c.i1 == c.i2 && c.tol.0 >= 0.0 && c.tol.1 >= 0.0
    requires forall k :: 0 <= k < |s.tolTs| ==> s.tolTs[k] >= 0.0
    requires forall k :: 0 <= k < |s.tolAs| ==> s.tolAs[k] >= 0.0
    requires s.minval == -1.0 || s.minval >= 0.0
    requires Scan(d, d, s, c).Success?
    ensures Scan(d, d, s, c).value == c.count
    decreases |d| - c.i1
  {
    if c.i1 < |d| {
      var l := d[c.i1];
      var nt := StepOf(l).value;
      var w := if nt != c.ntstep then Window(s, nt, 0, c.tol) else Success(c.tol);
      if nt != c.ntstep {
        WindowNonNegative(s, nt, 0, c.tol);
      }
      var tol := w.value;
      ColumnErrorsSelf(l, s.minval, TolFor(l[0].text, tol), 0);
      ScanSelf(d, s, Cursor(c.i1 + 1, c.i2 + 1, nt, tol, c.count));
    }
  }

  /** Comparing a file with itself never reports an error: the result is
      0, or -1 for a file too short to compare. */
  lemma SelfComparisonFindsNothing(d: seq<Line>, s: Settings)
    requires forall k :: 0 <= k < |s.tolTs| ==> s.tolTs[k] >= 0.0
    requires forall k :: 0 <= k < |s.tolAs| ==> s.tolAs[k] >= 0.0
    requires s.minval == -1.0 || s.minval >= 0.0
    requires Compare(Some(d), Some(d), s).Success?
    ensures Compare(Some(d), Some(d), s).value <= 0
  {
    if |s.tolTs| > 0 && |s.tolAs| > 0 && |d| > 4 {
      var h := SkipHeader(d, 0).value;
      AlignSame(d, h);
      ScanSelf(d, s, Cursor(h, h, StepOf(d[h]).value, (s.tolTs[0], s.tolAs[0]), 0));
    }
  }
}
