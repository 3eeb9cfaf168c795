/** The legacy YUCHKDAT comparator `cmp_` (tools/comp_yuchkdat.py): both
    files are walked in step, line by line; a `Check` line opens a set and
    chooses its tolerance by the step it names, and every pair of valid
    lines is judged by the difference of its last real column. Files are
    given as their token lines; a missing file is `None`. The parts shared
    with tools/ts_yuchdat.py (which repeats `isValidLine` and `isReal`) are
    defined here once. */
module CompYuchkdat {
  import opened Common

  // ---------------------------------------------------------------------
  // Lines

  /** `isReal(s)`: the field parses as a float and is written with a `.`. */
  predicate IsReal(t: Token)
  {
    t.asFloat.Some? && Contains(t.text, ".")
  }

  /** `ValidLineSize`. */
  const LineSize := 10

  /** `isValidLine(line, 10, [3, 6, 9])`. */
  predicate IsValidLine(l: Line)
  {
    |l| == LineSize && IsReal(l[3]) && IsReal(l[6]) && IsReal(l[9])
  }

  /** A line that opens a set: its first field contains `Check`. */
  predicate IsCheckLine(l: Line)
  {
    |l| > 0 && Contains(l[0].text, "Check")
  }

  /** The step of a `Check` line (lines 96-105): its last field when the
      one before contains `step:`, 0 when that field is not an integer or
      the keyword is absent; a one-field line raises IndexError. */
  function CheckStep(l: Line): (r: Result<int>)
    ensures r.Failure? <==> |l| < 2
    ensures r.Success? && !Contains(l[|l| - 2].text, "step:") ==> r.value == 0
    ensures r.Success? && Contains(l[|l| - 2].text, "step:") && l[|l| - 1].asInt.Some?
            ==> r.value == l[|l| - 1].asInt.value
  {
    if |l| < 2 then Failure(IndexError)
    else if Contains(l[|l| - 2].text, "step:") then
      if l[|l| - 1].asInt.Some? then Success(l[|l| - 1].asInt.value) else Success(0)
    else Success(0)
  }

  // ---------------------------------------------------------------------
  // Differences

  /** The difference of one real column (lines 146-153): absolute when
      `minval` is -1, relative to the larger magnitude when either value
      exceeds `minval`, 0 otherwise. */
  function PairDiff(minval: real, n1: real, n2: real): (r: Result<real>)
    ensures r.Failure? <==> minval != -1.0 && minval < 0.0 && n1 == 0.0 && n2 == 0.0
    ensures r.Failure? ==> r.error == ZeroDivisionError
    ensures r.Success? ==> r.value >= 0.0
  {
    if minval == -1.0 then Success(Abs(n1 - n2))
    else if Abs(n1) > minval || Abs(n2) > minval then
      var m := Max(Abs(n1), Abs(n2));
      if m == 0.0 then Failure(ZeroDivisionError)
      else Success(Abs((n1 - n2) / m))
    else Success(0.0)
  }

  /** What the difference is: absolute for `minval` -1, relative to the
      larger magnitude (and so at most 2) when either value exceeds
      `minval`, 0 when neither does, and 0 for equal values. */
  lemma PairDiffMeaning(minval: real, n1: real, n2: real)
    ensures var r := PairDiff(minval, n1, n2);
            && (minval == -1.0 ==> r == Success(Abs(n1 - n2)))
            && (r.Success? && minval != -1.0 && (Abs(n1) > minval || Abs(n2) > minval)
                ==> r.value * Max(Abs(n1), Abs(n2)) == Abs(n1 - n2) && r.value <= 2.0)
            && (minval != -1.0 && Abs(n1) <= minval && Abs(n2) <= minval ==> r == Success(0.0))
            && (n1 == n2 && r.Success? ==> r.value == 0.0)
  {
    var m := Max(Abs(n1), Abs(n2));
    if minval != -1.0 && (Abs(n1) > minval || Abs(n2) > minval) && m != 0.0 {
      AbsQuotient(n1 - n2, m);
      assert Abs(m) == m;
      RelativeAtMostTwo(n1, n2, m);
    }
  }

  lemma RelativeAtMostTwo(n1: real, n2: real, m: real)
    requires m == Max(Abs(n1), Abs(n2)) && m > 0.0
    ensures Abs((n1 - n2) / m) <= 2.0
  {
    AbsQuotient(n1 - n2, m);
    assert Abs(m) == m;
    assert Abs(n1 - n2) <= 2.0 * m;
    QuotientBound(Abs((n1 - n2) / m), m, Abs(n1 - n2));
  }

  lemma QuotientBound(q: real, m: real, a: real)
    requires m > 0.0 && q * m == a && a <= 2.0 * m
    ensures q <= 2.0
  {
    if q > 2.0 {
      PositiveProduct(q - 2.0, m);
    }
  }

  lemma PositiveProduct(a: real, b: real)
    requires a > 0.0 && b > 0.0
    ensures a * b > 0.0
  {
  }

  /** The float of a real column of a valid line. */
  function Col(l: Line, k: nat): real
    requires IsValidLine(l) && k < |l| && l[k].asFloat.Some?
  {
    l[k].asFloat.value
  }

  /** The column loop of lines 142-153: all three real columns are
      differenced, and only the last difference is kept; a division by
      zero in any of them raises. */
  function LastColumnDiff(l1: Line, l2: Line, minval: real): (r: Result<real>)
    requires IsValidLine(l1) && IsValidLine(l2)
    ensures r.Success? ==> r == PairDiff(minval, Col(l1, 9), Col(l2, 9))
    ensures r.Failure? ==> r.error == ZeroDivisionError
  {
    match PairDiff(minval, Col(l1, 3), Col(l2, 3))
    case Failure(e) => Failure(e)
    case Success(_) =>
      match PairDiff(minval, Col(l1, 6), Col(l2, 6))
      case Failure(e) => Failure(e)
      case Success(_) => PairDiff(minval, Col(l1, 9), Col(l2, 9))
  }

  /** Columns 3 and 6 never decide: a pair whose last columns are equal
      has difference 0, whatever the other columns hold. */
  lemma EqualLastColumnsDiffZero(l1: Line, l2: Line, minval: real)
    requires IsValidLine(l1) && IsValidLine(l2) && Col(l1, 9) == Col(l2, 9)
    requires LastColumnDiff(l1, l2, minval).Success?
    ensures LastColumnDiff(l1, l2, minval).value == 0.0
  {
    PairDiffMeaning(minval, Col(l1, 9), Col(l2, 9));
  }

  /** The column loop. */
  method LastDiff(l1: Line, l2: Line, minval: real) returns (r: Result<real>)
    requires IsValidLine(l1) && IsValidLine(l2)
    ensures r == LastColumnDiff(l1, l2, minval)
  {
    var positions: seq<nat> := [3, 6, 9];
    var ldiff := 0.0;
    assert positions[0] == 3 && positions[1] == 6 && positions[2] == 9;
    for k := 0 to |positions|
      invariant forall q :: 0 <= q < k ==> PairDiff(minval, Col(l1, positions[q]), Col(l2, positions[q])).Success?
      invariant k > 0 ==> ldiff == PairDiff(minval, Col(l1, positions[k - 1]), Col(l2, positions[k - 1])).value
    {
      var d := PairDiff(minval, Col(l1, positions[k]), Col(l2, positions[k]));
      if d.Failure? {
        return Failure(d.error);
      }
      ldiff := d.value;
    }
    return Success(ldiff);
  }

  // ---------------------------------------------------------------------
  // Judging a valid line pair

  /** The running variables of the line loop: the step of the current set
      (None before the first `Check` line, where Python has not bound it),
      the tolerance, the valid-line and error counters, and the largest
      exceeding difference. */
  datatype State = State(step: Option<int>, tol: real, nvalid: nat, count: nat, maxdiff: real)

  /** What a valid pair does: the names differ, or the pair was judged;
      `exceeded` holds the difference that was above the tolerance. */
  datatype Verdict = Mismatch | Judged(st: State, exceeded: Option<real>)

  /** Lines 124-163 for a valid pair: count it, compare names,
      and count an error when the last column's difference exceeds the
      tolerance. Recording a new largest difference reads `step`, which
      raises NameError before the first `Check` line. */
  function Judge(l1: Line, l2: Line, minval: real, st: State): (r: Result<Verdict>)
    requires IsValidLine(l1) && IsValidLine(l2)
    ensures r.Success? && r.value.Judged? ==>
              var d := LastColumnDiff(l1, l2, minval);
              && d.Success?
              && r.value.st.step == st.step && r.value.st.tol == st.tol
              && r.value.st.nvalid == st.nvalid + 1
              && (d.value > st.tol ==> r.value.st.count == st.count + 1 && r.value.exceeded == Some(d.value))
              && (d.value <= st.tol ==> r.value.st.count == st.count && r.value.exceeded.None?)
    ensures r.Success? && r.value.Mismatch? ==> Strip(l1[0].text) != Strip(l2[0].text)
    ensures r.Failure? ==> r.error == ZeroDivisionError || (r.error == NameError && st.step.None?)
  {
    var nvalid := st.nvalid + 1;
    if Strip(l1[0].text) != Strip(l2[0].text) then Success(Mismatch)
    else match LastColumnDiff(l1, l2, minval)
      case Failure(e) => Failure(e)
      case Success(ldiff) =>
        if ldiff > st.tol then
          if ldiff > st.maxdiff then
            if st.step.None? then Failure(NameError)
            else Success(Judged(st.(nvalid := nvalid, count := st.count + 1, maxdiff := ldiff), Some(ldiff)))
          else Success(Judged(st.(nvalid := nvalid, count := st.count + 1), Some(ldiff)))
        else Success(Judged(st.(nvalid := nvalid), None))
  }

  // ---------------------------------------------------------------------
  // The comparator

  /** The arguments of `cmp_` other than the files and the verbosity. */
  datatype Settings = Settings(minval: real, nts: seq<int>, tolList: seq<real>)

  /** Python's `bisect.bisect_left(a, x, lo, hi)`: binary search for the
      first position whose element is not below `x`. */
  function BisectFrom(a: seq<int>, x: int, lo: nat, hi: nat): (r: nat)
    requires lo <= hi <= |a|
    ensures lo <= r <= hi
    decreases hi - lo
  {
    if lo >= hi then lo
    else
      var mid := (lo + hi) / 2;
      if a[mid] < x then BisectFrom(a, x, mid + 1, hi) else BisectFrom(a, x, lo, mid)
  }

  function BisectLeft(a: seq<int>, x: int): (r: nat)
    ensures r <= |a|
  {
    BisectFrom(a, x, 0, |a|)
  }

  predicate Sorted(a: seq<int>)
  {
    forall i, j :: 0 <= i < j < |a| ==> a[i] <= a[j]
  }

  /** On a sorted list the search splits it into the elements below `x`
      and those not below. */
  lemma {:induction false} BisectFromSorted(a: seq<int>, x: int, lo: nat, hi: nat)
    requires lo <= hi <= |a| && Sorted(a)
    requires forall k :: 0 <= k < lo ==> a[k] < x
    requires forall k :: hi <= k < |a| ==> a[k] >= x
    ensures forall k :: 0 <= k < BisectFrom(a, x, lo, hi) ==> a[k] < x
    ensures forall k :: BisectFrom(a, x, lo, hi) <= k < |a| ==> a[k] >= x
    decreases hi - lo
  {
    if lo < hi {
      var mid := (lo + hi) / 2;
      if a[mid] < x {
        BisectFromSorted(a, x, mid + 1, hi);
      } else {
        BisectFromSorted(a, x, lo, mid);
      }
    }
  }

  lemma BisectLeftSorted(a: seq<int>, x: int)
    requires Sorted(a)
    ensures forall k :: 0 <= k < BisectLeft(a, x) ==> a[k] < x
    ensures forall k :: BisectLeft(a, x) <= k < |a| ==> a[k] >= x
  {
    BisectFromSorted(a, x, 0, |a|);
  }

  /** The tolerance index of lines 108-113: `bisect_left(nts, step)`,
      clamped to the last tolerance. */
  function TolIndex(nts: seq<int>, ntol: nat, step: int): (r: int)
    requires ntol > 0
    ensures 0 <= r < ntol
    ensures r == BisectLeft(nts, step) || (r == ntol - 1 && BisectLeft(nts, step) >= ntol)
  {
    var i := BisectLeft(nts, step);
    if i >= ntol then ntol - 1 else i
  }

  /** On sorted `nts` (and enough tolerances) the set of step `step` is
      judged by the tolerance of the first breakpoint at or above it. */
  lemma TolIndexSorted(nts: seq<int>, ntol: nat, step: int)
    requires Sorted(nts) && ntol > |nts|
    ensures var r := TolIndex(nts, ntol, step);
            (forall k :: 0 <= k < r ==> nts[k] < step) && (r < |nts| ==> nts[r] >= step)
  {
    BisectLeftSorted(nts, step);
  }

  /** The line loop of lines 91-177 from line `i` on, ending with the
      result of lines 191-195. */
  function Walk(d1: seq<Line>, d2: seq<Line>, s: Settings, i: nat, st: State): (r: Result<int>)
    requires |s.tolList| > 0
    ensures r.Success? ==> r.value == -1 || (r.value >= st.count && (i <= |d1| ==> r.value <= st.count + |d1| - i))
    decreases |d1| - i
  {
    if i >= |d1| || i >= |d2| then Success(if st.nvalid == 0 then -1 else st.count)
    else
      var l1 := d1[i];
      var l2 := d2[i];
      match (if IsCheckLine(l1) then CheckStep(l1) else Success(0))
      case Failure(e) => Failure(e)
      case Success(step) =>
        var st1 := if IsCheckLine(l1) then st.(step := Some(step), tol := s.tolList[TolIndex(s.nts, |s.tolList|, step)])
                   else st;
        if !(IsValidLine(l1) && IsValidLine(l2)) then Walk(d1, d2, s, i + 1, st1)
        else match Judge(l1, l2, s.minval, st1)
          case Failure(e) => Failure(e)
          case Success(Mismatch) => Success(-1)
          case Success(Judged(st2, _)) => Walk(d1, d2, s, i + 1, st2)
  }

  /** The whole of `cmp_`. */
  function Compare(f1: Option<seq<Line>>, f2: Option<seq<Line>>, s: Settings): (r: Result<int>)
    ensures f1.None? || f2.None? ==> r == Success(-1)
    ensures f1.Some? && f2.Some? && |s.tolList| == 0 ==> r == Failure(IndexError)
    ensures r.Success? && f1.Some? && f2.Some?
            ==> r.value == -1 || 0 <= r.value <= MinInt(|f1.value|, |f2.value|)
  {
    if f1.None? || f2.None? then Success(-1)
    else if |s.tolList| == 0 then Failure(IndexError)
    else
      var r := Walk(f1.value, f2.value, s, 0, State(None, s.tolList[0], 0, 0, 0.0));
      assert r.Success? && r.value != -1 ==> r.value <= |f2.value| by {
        if r.Success? && r.value != -1 {
          WalkCountBound(f1.value, f2.value, s, 0, State(None, s.tolList[0], 0, 0, 0.0));
        }
      }
      r
  }

  /** The count never passes the length of the second file either. */
  lemma {:induction false} WalkCountBound(d1: seq<Line>, d2: seq<Line>, s: Settings, i: nat, st: State)
    requires |s.tolList| > 0
    requires Walk(d1, d2, s, i, st).Success? && Walk(d1, d2, s, i, st).value != -1
    ensures i <= |d2| ==> Walk(d1, d2, s, i, st).value <= st.count + |d2| - i
    decreases |d1| - i
  {
    if i < |d1| && i < |d2| {
      var l1 := d1[i];
      var step := (if IsCheckLine(l1) then CheckStep(l1) else Success(0)).value;
      var st1 := if IsCheckLine(l1) then st.(step := Some(step), tol := s.tolList[TolIndex(s.nts, |s.tolList|, step)])
                 else st;
      if !(IsValidLine(l1) && IsValidLine(d2[i])) {
        WalkCountBound(d1, d2, s, i + 1, st1);
      } else {
        var v := Judge(l1, d2[i], s.minval, st1).value;
        WalkCountBound(d1, d2, s, i + 1, v.st);
      }
    }
  }

  /** Without a valid pair of lines the comparator reports -1 (or raises
      on a one-field `Check` line). */
  lemma {:induction false} NoValidLineIsMinusOne(d1: seq<Line>, d2: seq<Line>, s: Settings, i: nat, st: State)
    requires |s.tolList| > 0 && st.nvalid == 0
    requires forall k :: i <= k < |d1| && k < |d2| ==> !(IsValidLine(d1[k]) && IsValidLine(d2[k]))
    ensures Walk(d1, d2, s, i, st) == Success(-1) || Walk(d1, d2, s, i, st) == Failure(IndexError)
    decreases |d1| - i
  {
    if i < |d1| && i < |d2| {
      var l1 := d1[i];
      if IsCheckLine(l1) && CheckStep(l1).Success? {
        var step := CheckStep(l1).value;
        NoValidLineIsMinusOne(d1, d2, s, i + 1, st.(step := Some(step), tol := s.tolList[TolIndex(s.nts, |s.tolList|, step)]));
      } else if !IsCheckLine(l1) {
        NoValidLineIsMinusOne(d1, d2, s, i + 1, st);
      }
    }
  }

  /** A file compared with itself has no error, as long as the tolerances
      are not negative and `minval` leaves no division by zero. */
  lemma {:induction false} WalkSelf(d: seq<Line>, s: Settings, i: nat, st: State)
    requires |s.tolList| > 0 && st.tol >= 0.0 && (s.minval == -1.0 || s.minval >= 0.0)
    requires forall k :: 0 <= k < |s.tolList| ==> s.tolList[k] >= 0.0
    requires Walk(d, d, s, i, st).Success? && Walk(d, d, s, i, st).value != -1
    ensures Walk(d, d, s, i, st).value == st.count
    decreases |d| - i
  {
    if i < |d| {
      var l := d[i];
      var step := (if IsCheckLine(l) then CheckStep(l) else Success(0)).value;
      var st1 := if IsCheckLine(l) then st.(step := Some(step), tol := s.tolList[TolIndex(s.nts, |s.tolList|, step)])
                 else st;
      if !IsValidLine(l) {
        WalkSelf(d, s, i + 1, st1);
      } else {
        var v := Judge(l, l, s.minval, st1).value;
        WalkSelf(d, s, i + 1, v.st);
      }
    }
  }

  lemma SelfComparisonFindsNothing(d: seq<Line>, s: Settings)
    requires s.minval == -1.0 || s.minval >= 0.0
    requires forall k :: 0 <= k < |s.tolList| ==> s.tolList[k] >= 0.0
    requires Compare(Some(d), Some(d), s).Success?
    ensures Compare(Some(d), Some(d), s).value <= 0
  {
    if Compare(Some(d), Some(d), s).value != -1 {
      WalkSelf(d, s, 0, State(None, s.tolList[0], 0, 0, 0.0));
    }
  }

  /** `cmp_` over two files. */
  method Cmp(f1: Option<seq<Line>>, f2: Option<seq<Line>>, s: Settings) returns (r: Result<int>)
    ensures r == Compare(f1, f2, s)
  {
    if f1.None? || f2.None? {
      return Success(-1);
    }
    if |s.tolList| == 0 {
      return Failure(IndexError);
    }
    r := WalkLines(f1.value, f2.value, s, State(None, s.tolList[0], 0, 0, 0.0));
  }

  /** The line loop of `cmp_` and its result. */
  method WalkLines(data1: seq<Line>, data2: seq<Line>, s: Settings, st0: State) returns (r: Result<int>)
    requires |s.tolList| > 0
    ensures r == Walk(data1, data2, s, 0, st0)
  {
    var st := st0;
    var nline := MinInt(|data1|, |data2|);
    for i := 0 to nline
      invariant Walk(data1, data2, s, i, st) == Walk(data1, data2, s, 0, st0)
    {
      var l1, l2 := data1[i], data2[i];
      if IsCheckLine(l1) {
        var step := CheckStep(l1);
        if step.Failure? {
          return Failure(step.error);
        }
        var thInd := BisectLeft(s.nts, step.value);
        if thInd >= |s.tolList| {
          thInd := |s.tolList| - 1;
        }
        st := st.(step := Some(step.value), tol := s.tolList[thInd]);
      }
      if IsValidLine(l1) && IsValidLine(l2) {
        var v := JudgePair(l1, l2, s.minval, st);
        if v.Failure? {
          return Failure(v.error);
        }
        if v.value.Mismatch? {
          return Success(-1);
        }
        st := v.value.st;
      }
    }
    if st.nvalid == 0 {
      return Success(-1);
    }
    return Success(st.count);
  }

  /** Lines 124-163 for one valid pair. */
  method JudgePair(l1: Line, l2: Line, minval: real, st: State) returns (r: Result<Verdict>)
    requires IsValidLine(l1) && IsValidLine(l2)
    ensures r == Judge(l1, l2, minval, st)
  {
    var nvalidLine := st.nvalid + 1;
    if Strip(l1[0].text) != Strip(l2[0].text) {
      return Success(Mismatch);
    }
    var ldiff := LastDiff(l1, l2, minval);
    if ldiff.Failure? {
      return Failure(ldiff.error);
    }
    var errorCount, maxdiff := st.count, st.maxdiff;
    if ldiff.value > st.tol {
      errorCount := errorCount + 1;
      if ldiff.value > maxdiff {
        if st.step.None? {
          return Failure(NameError);
        }
        maxdiff := ldiff.value;
      }
      return Success(Judged(st.(nvalid := nvalidLine, count := errorCount, maxdiff := maxdiff), Some(ldiff.value)));
    }
    return Success(Judged(st.(nvalid := nvalidLine), None));
  }
}
