/** `cmp_table` (tools/comp_table.py): two files of tables are compared
    line by line; a line takes part only when it has the column pattern's
    shape, and in it every column marked `c` is compared by its relative
    difference. Files are given as their token lines; a missing file is
    `None`. */
module CompTable {
  import opened Common

  /** Added to the divisor so that a zero `minval` cannot divide by zero. */
  const Epsilon: real := 0.0000000000000001

  /** `colpattern=[x=='c' for x in list(colpattern)]`. */
  function Pattern(colpattern: string): (p: seq<bool>)
    ensures |p| == |colpattern|
    ensures forall i :: 0 <= i < |p| ==> (p[i] <==> colpattern[i] == 'c')
  {
    seq(|colpattern|, i requires 0 <= i < |colpattern| => colpattern[i] == 'c')
  }

  /** `matchColPattern(line, colpattern)`: as many fields as the pattern
      has columns, every compared field a float. */
  predicate Matches(l: Line, p: seq<bool>)
  {
    |l| == |p| && forall i :: 0 <= i < |p| && p[i] ==> l[i].asFloat.Some?
  }

  /** The difference of line 82: relative to the larger magnitude, with
      `Epsilon` added to the divisor. */
  function RelDiff(v1: real, v2: real): (d: real)
    ensures d >= 0.0
    ensures d == 0.0 <==> v1 == v2
  {
    var m := Max(Abs(v1), Abs(v2));
    assert m + Epsilon > 0.0;
    QuotientSign(Abs(v1 - v2), m + Epsilon);
    Abs(v1 - v2) / (m + Epsilon)
  }

  lemma QuotientSign(a: real, b: real)
    requires a >= 0.0 && b > 0.0
    ensures a / b >= 0.0 && (a / b == 0.0 <==> a == 0.0)
  {
    assert (a / b) * b == a;
  }

  /** The difference does not depend on which file a value came from. */
  lemma RelDiffSymmetric(v1: real, v2: real)
    ensures RelDiff(v1, v2) == RelDiff(v2, v1)
  {
    assert Abs(v1 - v2) == Abs(v2 - v1);
  }

  /** How many values were compared and how many of them exceeded the
      threshold. */
  datatype Tally = Tally(ncomp: nat, nerror: nat)

  /** Every error is a compared value. */
  predicate Consistent(t: Tally)
  {
    t.nerror <= t.ncomp
  }

  /** One compared column (lines 76-84): a value counts when the larger
      magnitude exceeds `minval`, and is an error when its difference
      exceeds `threshold`. */
  function Column(v1: real, v2: real, minval: real, threshold: real, acc: Tally): (r: Tally)
    ensures Consistent(acc) ==> Consistent(r)
    ensures r.ncomp == acc.ncomp + (if Max(Abs(v1), Abs(v2)) > minval then 1 else 0)
    ensures r.nerror == acc.nerror + (if Max(Abs(v1), Abs(v2)) > minval && RelDiff(v1, v2) > threshold then 1 else 0)
  {
    if Max(Abs(v1), Abs(v2)) > minval then
      Tally(acc.ncomp + 1, if RelDiff(v1, v2) > threshold then acc.nerror + 1 else acc.nerror)
    else acc
  }

  /** The column loop of lines 75-84 from column `ic` on. */
  function Columns(l1: Line, l2: Line, p: seq<bool>, minval: real, threshold: real, ic: nat, acc: Tally): (r: Tally)
    requires Matches(l1, p) && Matches(l2, p) && ic <= |p|
    ensures Consistent(acc) ==> Consistent(r)
    ensures acc.ncomp <= r.ncomp <= acc.ncomp + (|p| - ic) && acc.nerror <= r.nerror
    decreases |p| - ic
  {
    if ic >= |p| then acc
    else if p[ic] then
      Columns(l1, l2, p, minval, threshold, ic + 1,
              Column(l1[ic].asFloat.value, l2[ic].asFloat.value, minval, threshold, acc))
    else Columns(l1, l2, p, minval, threshold, ic + 1, acc)
  }

  /** The line loop of lines 68-84 from line `il` up to line `n`. */
  function Lines(d1: seq<Line>, d2: seq<Line>, p: seq<bool>, minval: real, threshold: real,
                 il: nat, n: nat, acc: Tally): (r: Tally)
    requires n <= |d1| && n <= |d2|
    ensures Consistent(acc) ==> Consistent(r)
    ensures acc.ncomp <= r.ncomp && acc.nerror <= r.nerror
    decreases n - il
  {
    if il >= n then acc
    else if Matches(d1[il], p) && Matches(d2[il], p) then
      Lines(d1, d2, p, minval, threshold, il + 1, n, Columns(d1[il], d2[il], p, minval, threshold, 0, acc))
    else Lines(d1, d2, p, minval, threshold, il + 1, n, acc)
  }

  /** The number of lines compared (lines 62-64): the common length,
      capped by `maxcompline` when that is positive. */
  function LineCount(nd1: nat, nd2: nat, maxcompline: int): (n: nat)
    ensures n <= nd1 && n <= nd2
    ensures maxcompline > 0 ==> n <= maxcompline
    ensures n == MinInt(nd1, nd2) || (maxcompline > 0 && n == maxcompline)
  {
    var n := MinInt(nd1, nd2);
    if maxcompline > 0 && maxcompline < n then maxcompline else n
  }

  /** The whole of `cmp_table`: -1 for a missing or empty file, -2 when no
      value was compared, the number of errors otherwise. */
  function TableDiff(f1: Option<seq<Line>>, f2: Option<seq<Line>>, colpattern: string,
                     minval: real, threshold: real, maxcompline: int): (r: int)
    ensures f1.None? || f2.None? ==> r == -1
    ensures f1.Some? && f2.Some? && (|f1.value| == 0 || |f2.value| == 0) ==> r == -1
    ensures r >= -2
  {
    if f1.None? || f2.None? then -1
    else if |f1.value| == 0 || |f2.value| == 0 then -1
    else
      var n := LineCount(|f1.value|, |f2.value|, maxcompline);
      var t := Lines(f1.value, f2.value, Pattern(colpattern), minval, threshold, 0, n, Tally(0, 0));
      if t.ncomp == 0 then -2 else t.nerror
  }

  /** The count of errors never passes the count of compared values, and
      -2 means nothing was compared. */
  lemma ErrorsAtMostCompared(d1: seq<Line>, d2: seq<Line>, colpattern: string,
                             minval: real, threshold: real, maxcompline: int)
    requires |d1| > 0 && |d2| > 0
    ensures var n := LineCount(|d1|, |d2|, maxcompline);
            var t := Lines(d1, d2, Pattern(colpattern), minval, threshold, 0, n, Tally(0, 0));
            && t.nerror <= t.ncomp
            && (TableDiff(Some(d1), Some(d2), colpattern, minval, threshold, maxcompline) == -2 <==> t.ncomp == 0)
            && (t.ncomp > 0 ==> TableDiff(Some(d1), Some(d2), colpattern, minval, threshold, maxcompline) == t.nerror)
  {
  }

  lemma {:induction false} ColumnsSymmetric(l1: Line, l2: Line, p: seq<bool>, minval: real, threshold: real, ic: nat, acc: Tally)
    requires Matches(l1, p) && Matches(l2, p) && ic <= |p|
    ensures Columns(l1, l2, p, minval, threshold, ic, acc) == Columns(l2, l1, p, minval, threshold, ic, acc)
    decreases |p| - ic
  {
    if ic < |p| {
      if p[ic] {
        var v1, v2 := l1[ic].asFloat.value, l2[ic].asFloat.value;
        RelDiffSymmetric(v1, v2);
        assert Max(Abs(v1), Abs(v2)) == Max(Abs(v2), Abs(v1));
        ColumnsSymmetric(l1, l2, p, minval, threshold, ic + 1, Column(v1, v2, minval, threshold, acc));
      } else {
        ColumnsSymmetric(l1, l2, p, minval, threshold, ic + 1, acc);
      }
    }
  }

  lemma {:induction false} LinesSymmetric(d1: seq<Line>, d2: seq<Line>, p: seq<bool>, minval: real, threshold: real,
                                          il: nat, n: nat, acc: Tally)
    requires n <= |d1| && n <= |d2|
    ensures Lines(d1, d2, p, minval, threshold, il, n, acc) == Lines(d2, d1, p, minval, threshold, il, n, acc)
    decreases n - il
  {
    if il < n {
      if Matches(d1[il], p) && Matches(d2[il], p) {
        ColumnsSymmetric(d1[il], d2[il], p, minval, threshold, 0, acc);
        LinesSymmetric(d1, d2, p, minval, threshold, il + 1, n, Columns(d1[il], d2[il], p, minval, threshold, 0, acc));
      } else {
        LinesSymmetric(d1, d2, p, minval, threshold, il + 1, n, acc);
      }
    }
  }

  /** Swapping the two files changes nothing. */
  lemma Symmetric(f1: Option<seq<Line>>, f2: Option<seq<Line>>, colpattern: string,
                  minval: real, threshold: real, maxcompline: int)
    ensures TableDiff(f1, f2, colpattern, minval, threshold, maxcompline)
            == TableDiff(f2, f1, colpattern, minval, threshold, maxcompline)
  {
    if f1.Some? && f2.Some? && |f1.value| > 0 && |f2.value| > 0 {
      var n := LineCount(|f1.value|, |f2.value|, maxcompline);
      assert n == LineCount(|f2.value|, |f1.value|, maxcompline);
      LinesSymmetric(f1.value, f2.value, Pattern(colpattern), minval, threshold, 0, n, Tally(0, 0));
    }
  }

  lemma {:induction false} ColumnsSelf(l: Line, p: seq<bool>, minval: real, threshold: real, ic: nat, acc: Tally)
    requires Matches(l, p) && ic <= |p| && threshold >= 0.0
    ensures Columns(l, l, p, minval, threshold, ic, acc).nerror == acc.nerror
    decreases |p| - ic
  {
    if ic < |p| {
      if p[ic] {
        var v := l[ic].asFloat.value;
        ColumnsSelf(l, p, minval, threshold, ic + 1, Column(v, v, minval, threshold, acc));
      } else {
        ColumnsSelf(l, p, minval, threshold, ic + 1, acc);
      }
    }
  }

  lemma {:induction false} LinesSelf(d: seq<Line>, p: seq<bool>, minval: real, threshold: real, il: nat, n: nat, acc: Tally)
    requires n <= |d| && threshold >= 0.0
    ensures Lines(d, d, p, minval, threshold, il, n, acc).nerror == acc.nerror
    decreases n - il
  {
    if il < n {
      if Matches(d[il], p) {
        ColumnsSelf(d[il], p, minval, threshold, 0, acc);
        LinesSelf(d, p, minval, threshold, il + 1, n, Columns(d[il], d[il], p, minval, threshold, 0, acc));
      } else {
        LinesSelf(d, p, minval, threshold, il + 1, n, acc);
      }
    }
  }

  /** A file compared with itself has no error (or nothing to compare). */
  lemma SelfComparisonFindsNothing(d: seq<Line>, colpattern: string, minval: real, threshold: real, maxcompline: int)
    requires threshold >= 0.0
    ensures TableDiff(Some(d), Some(d), colpattern, minval, threshold, maxcompline) in {-2, -1, 0}
  {
    if |d| > 0 {
      LinesSelf(d, Pattern(colpattern), minval, threshold, 0, LineCount(|d|, |d|, maxcompline), Tally(0, 0));
    }
  }

  /** The lines past `n` are never read. */
  lemma {:induction false} LinesPrefix(d1: seq<Line>, d2: seq<Line>, e1: seq<Line>, e2: seq<Line>, p: seq<bool>,
                                       minval: real, threshold: real, il: nat, n: nat, acc: Tally)
    requires n <= |d1| && n <= |d2| && n <= |e1| && n <= |e2|
    requires d1[..n] == e1[..n] && d2[..n] == e2[..n]
    ensures Lines(d1, d2, p, minval, threshold, il, n, acc) == Lines(e1, e2, p, minval, threshold, il, n, acc)
    decreases n - il
  {
    if il < n {
      assert d1[il] == d1[..n][il] && e1[il] == e1[..n][il];
      assert d2[il] == d2[..n][il] && e2[il] == e2[..n][il];
      if Matches(d1[il], p) && Matches(d2[il], p) {
        LinesPrefix(d1, d2, e1, e2, p, minval, threshold, il + 1, n, Columns(d1[il], d2[il], p, minval, threshold, 0, acc));
      } else {
        LinesPrefix(d1, d2, e1, e2, p, minval, threshold, il + 1, n, acc);
      }
    }
  }

  /** A positive `maxcompline` compares the files as if they were cut
      after that many lines. */
  lemma MaxCompLineCuts(d1: seq<Line>, d2: seq<Line>, colpattern: string,
                        minval: real, threshold: real, m: int)
    requires m > 0
    ensures TableDiff(Some(d1), Some(d2), colpattern, minval, threshold, m)
            == TableDiff(Some(d1[..MinInt(m, |d1|)]), Some(d2[..MinInt(m, |d2|)]), colpattern, minval, threshold, -1)
  {
    var e1, e2 := d1[..MinInt(m, |d1|)], d2[..MinInt(m, |d2|)];
    if |d1| > 0 && |d2| > 0 {
      var n := LineCount(|d1|, |d2|, m);
      assert n == LineCount(|e1|, |e2|, -1);
      assert d1[..n] == e1[..n] && d2[..n] == e2[..n];
      LinesPrefix(d1, d2, e1, e2, Pattern(colpattern), minval, threshold, 0, n, Tally(0, 0));
    }
  }

  /** `cmp_table(file1, file2, colpattern, minval, threshold, maxcompline)`. */
  method CmpTable(f1: Option<seq<Line>>, f2: Option<seq<Line>>, colpattern: string,
                  minval: real, threshold: real, maxcompline: int) returns (nerror: int)
    ensures nerror == TableDiff(f1, f2, colpattern, minval, threshold, maxcompline)
  {
    if f1.None? || f2.None? {
      return -1;
    }
    var p := Pattern(colpattern);
    var data1, data2 := f1.value, f2.value;
    var nd1, nd2 := |data1|, |data2|;
    if nd1 == 0 || nd2 == 0 {
      return -1;
    }
    var ncdata := MinInt(nd1, nd2);
    if maxcompline > 0 {
      ncdata := MinInt(ncdata, maxcompline);
    }
    assert ncdata == LineCount(nd1, nd2, maxcompline);
    var ncomp: nat, nerr: nat := 0, 0;
    for il := 0 to ncdata
      invariant Lines(data1, data2, p, minval, threshold, il, ncdata, Tally(ncomp, nerr))
                == Lines(data1, data2, p, minval, threshold, 0, ncdata, Tally(0, 0))
    {
      var l1, l2 := data1[il], data2[il];
      if Matches(l1, p) && Matches(l2, p) {
        ghost var start := Tally(ncomp, nerr);
        for ic := 0 to |p|
          invariant Columns(l1, l2, p, minval, threshold, ic, Tally(ncomp, nerr))
                    == Columns(l1, l2, p, minval, threshold, 0, start)
        {
          if p[ic] {
            var v1, v2 := l1[ic].asFloat.value, l2[ic].asFloat.value;
            var valAbsMax := Max(Abs(v1), Abs(v2));
            if valAbsMax > minval {
              ncomp := ncomp + 1;
              var diff := Abs(v1 - v2) / (valAbsMax + Epsilon);
              if diff > threshold {
                nerr := nerr + 1;
              }
            }
          }
        }
      }
    }
    if ncomp == 0 {
      return -2;
    }
    return nerr;
  }
}
