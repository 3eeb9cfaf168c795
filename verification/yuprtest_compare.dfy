/** The comparison of two YUPRTEST files against a tolerance table (class
    `Compare` of tools/ts_yuprtest.py): records are paired in file order,
    each of minimum, maximum and mean is judged MATCH (0), OK (1) or FAIL
    (2), and the worst result is kept per step and per variable. In update
    mode the same pairing tunes the table instead. */
module YuprtestCompare {
  import opened Common
  import opened ThresholdTable
  import opened ThresholdProps
  import opened YuprtestFile
  import opened TsThresholds

  // ---------------------------------------------------------------------
  // One value

  /** `__compute_difference`: absolute when `minval` is negative, relative
      to `ref` when `|ref|` exceeds `minval`, and zero otherwise. */
  function Difference(minval: real, ref: real, value: real): (r: real)
    ensures r >= 0.0
    ensures minval < 0.0 ==> r == Abs(value - ref)
    ensures minval >= 0.0 && Abs(ref) > minval ==> r * Abs(ref) == Abs(value - ref)
    ensures minval >= 0.0 && Abs(ref) <= minval ==> r == 0.0
  {
    if minval < 0.0 then Abs(value - ref)
    else if Abs(ref) > minval then
      AbsQuotient(value - ref, ref);
      Abs((value - ref) / ref)
    else 0.0
  }

  /** The status of a difference against a tolerance. */
  function Classify(diff: real, thresh: real): (s: int)
    ensures 0 <= s <= 2
    ensures s == 0 <==> diff == 0.0
    ensures s == 1 <==> diff != 0.0 && diff <= thresh
    ensures s == 2 <==> diff != 0.0 && diff > thresh
  {
    if diff == 0.0 then 0 else if diff <= thresh then 1 else 2
  }

  /** A larger difference never gets a better status. */
  lemma ClassifyMonotone(d1: real, d2: real, thresh: real)
    requires 0.0 <= d1 <= d2
    ensures Classify(d1, thresh) <= Classify(d2, thresh)
  {
  }

  /** What compare-mode `__compare_values` returns. */
  datatype Verdict = Verdict(status: int, diff: real, thresh: real)

  /** Compare-mode `__compare_values`: the difference, the tolerance of
      `name` at `step`, and the status of one against the other. The
      lookup raises IndexError on a table without steps. */
  function CompareValues(t: Table, logBlend: (real, real, real) -> real,
                         name: string, step: int, ref: real, value: real): (r: Result<Verdict>)
    requires WellShaped(t)
    ensures r.Failure? <==> |t.steps| == 0
    ensures r.Failure? ==> r.error == IndexError
    ensures r.Success? ==>
              && r.value.diff == Difference(t.minval, ref, value)
              && r.value.thresh == Lookup(t, logBlend, name, step)
              && (r.value.status == 0 <==> r.value.diff == 0.0)
              && (r.value.status == 1 <==> 0.0 < r.value.diff <= r.value.thresh)
              && (r.value.status == 2 <==> 0.0 < r.value.diff && r.value.diff > r.value.thresh)
  {
    var diff := Difference(t.minval, ref, value);
    match GetThreshold(t, logBlend, name, step)
    case Failure(e) => Failure(e)
    case Success(thresh) => Success(Verdict(Classify(diff, thresh), diff, thresh))
  }

  // ---------------------------------------------------------------------
  // One pair of records

  /** Which of minimum, maximum and mean an entry names. */
  datatype Position = Minimum | Maximum | Mean

  /** `["minimum", "maximum", "mean"][diffs.index(min(diffs))]`: the first
      of the three with the smallest difference. */
  function MinPosition(d1: real, d2: real, d3: real): (p: Position)
    ensures p == Minimum ==> d1 <= d2 && d1 <= d3
    ensures p == Maximum ==> d2 < d1 && d2 <= d3
    ensures p == Mean ==> d3 < d1 && d3 < d2
  {
    if d1 <= d2 && d1 <= d3 then Minimum else if d2 <= d3 then Maximum else Mean
  }

  /** A `YuprLine`: the outcome of comparing one pair of records. */
  datatype YuprLine = YuprLine(status: int, diff: real, name: string, step: int, level: int,
                               thresh: real, pos: Position)

  predicate SameKey(a: Record, b: Record)
  {
    a.name == b.name && a.step == b.step && a.level == b.level
  }

  function Max3(a: real, b: real, c: real): real { Max(Max(a, b), c) }

  function MaxInt3(a: int, b: int, c: int): int { MaxInt(MaxInt(a, b), c) }

  /** Compare-mode `__compare_entry`: records for different
      `(var, step, level)` raise ValueError; otherwise the line carries the
      worst status and the largest difference of the three values, and
      `pos` names the value with the smallest difference. */
  function CompareEntry(t: Table, logBlend: (real, real, real) -> real, ref: Record, data: Record)
    : (r: Result<YuprLine>)
    requires WellShaped(t)
    ensures r.Success? <==> SameKey(ref, data) && |t.steps| > 0
  {
    if !SameKey(ref, data) then Failure(ValueError)
    else
      var v1 := CompareValues(t, logBlend, ref.name, ref.step, ref.minimum, data.minimum);
      var v2 := CompareValues(t, logBlend, ref.name, ref.step, ref.maximum, data.maximum);
      var v3 := CompareValues(t, logBlend, ref.name, ref.step, ref.mean, data.mean);
      if v1.Failure? || v2.Failure? || v3.Failure? then Failure(IndexError)
      else
        var (a, b, c) := (v1.value, v2.value, v3.value);
        var diff := Max3(a.diff, b.diff, c.diff);
        Success(YuprLine(MaxInt3(a.status, b.status, c.status), diff, ref.name, ref.step, ref.level,
                         c.thresh, MinPosition(a.diff, b.diff, c.diff)))
  }

  /** The worst of three statuses is the status of the largest difference. */
  lemma StatusOfLargest(d1: real, d2: real, d3: real, thresh: real)
    requires d1 >= 0.0 && d2 >= 0.0 && d3 >= 0.0
    ensures MaxInt3(Classify(d1, thresh), Classify(d2, thresh), Classify(d3, thresh))
            == Classify(Max3(d1, d2, d3), thresh)
  {
    var m := Max3(d1, d2, d3);
    ClassifyMonotone(d1, m, thresh);
    ClassifyMonotone(d2, m, thresh);
    ClassifyMonotone(d3, m, thresh);
  }

  /** What an entry holds: records for different `(var, step, level)`
      raise ValueError; otherwise the line carries the largest difference
      of the three values and the status of that difference (the worst of
      the three), and `pos` names the value with the smallest difference. */
  lemma CompareEntryMeaning(t: Table, logBlend: (real, real, real) -> real, ref: Record, data: Record)
    requires WellShaped(t)
    ensures var r := CompareEntry(t, logBlend, ref, data);
            && (!SameKey(ref, data) ==> r == Failure(ValueError))
            && (SameKey(ref, data) && |t.steps| == 0 ==> r == Failure(IndexError))
            && (r.Success? ==>
              var d1 := Difference(t.minval, ref.minimum, data.minimum);
              var d2 := Difference(t.minval, ref.maximum, data.maximum);
              var d3 := Difference(t.minval, ref.mean, data.mean);
              && r.value.name == ref.name && r.value.step == ref.step && r.value.level == ref.level
              && r.value.thresh == Lookup(t, logBlend, ref.name, ref.step)
              && r.value.diff >= d1 && r.value.diff >= d2 && r.value.diff >= d3
              && (r.value.diff == d1 || r.value.diff == d2 || r.value.diff == d3)
              && r.value.status == Classify(r.value.diff, r.value.thresh)
              && r.value.pos == MinPosition(d1, d2, d3))
  {
    if SameKey(ref, data) && |t.steps| > 0 {
      StatusOfLargest(Difference(t.minval, ref.minimum, data.minimum),
                      Difference(t.minval, ref.maximum, data.maximum),
                      Difference(t.minval, ref.mean, data.mean),
                      Lookup(t, logBlend, ref.name, ref.step));
    }
  }

  // ---------------------------------------------------------------------
  // Per-step accumulators

  /** An entry of `_maxdiff[step]`: the initial `[0, -inf, -inf]`, the
      worst line seen so far, or the NaN filler `compare_data` adds for a
      variable that never occurred. */
  datatype Bucket =
    | Initial
    | Worst(status: int, rel: real, diff: real, level: int, thresh: real, pos: Position)
    | Missing

  /** `_maxdiff[step]`: a dict from variable name to bucket, in insertion
      order. */
  type Buckets = seq<(string, Bucket)>

  function Find(bs: Buckets, x: string): (r: Option<Bucket>)
    ensures r.Some? <==> exists i :: 0 <= i < |bs| && bs[i].0 == x
    ensures r.Some? ==> (x, r.value) in bs
  {
    if |bs| == 0 then None
    else if bs[0].0 == x then Some(bs[0].1)
    else
      var r := Find(bs[1..], x);
      assert forall i :: 1 <= i < |bs| ==> bs[i] == bs[1..][i - 1];
      r
  }

  /** `bs[x] = b`: replace in place, or append a new key. */
  function Store(bs: Buckets, x: string, b: Bucket): (r: Buckets)
    ensures Find(r, x) == Some(b)
    ensures forall y :: y != x ==> Find(r, y) == Find(bs, y)
    ensures Find(bs, x).Some? ==> |r| == |bs|
    ensures Find(bs, x).None? ==> r == bs + [(x, b)]
  {
    if |bs| == 0 then [(x, b)]
    else if bs[0].0 == x then
      var r := [(x, b)] + bs[1..];
      assert r[0] == (x, b) && r[1..] == bs[1..];
      r
    else
      var rest := Store(bs[1..], x, b);
      var r := [bs[0]] + rest;
      assert r[0] == bs[0] && r[1..] == rest;
      r
  }

  /** `rel` of `__update_status`: the difference over the tolerance when
      the tolerance is positive. */
  function Ratio(line: YuprLine): real
  {
    if line.thresh > 0.0 then line.diff / line.thresh else line.diff
  }

  function WorstOf(line: YuprLine): Bucket
  {
    Worst(line.status, Ratio(line), line.diff, line.level, line.thresh, line.pos)
  }

  /** `status >= m[0] and rel > m[1]`; every comparison with NaN is false
      and nothing is above `-inf`. */
  predicate Above(status: int, rel: real, b: Bucket)
  {
    match b
    case Initial => status >= 0
    case Worst(s, r, _, _, _, _) => status >= s && rel > r
    case Missing => false
  }

  /** One pass of the loop over `var` in `__update_status`. */
  function Consider(bs: Buckets, x: string, line: YuprLine): (r: Buckets)
  {
    var bs1 := if Find(bs, x).None? then Store(bs, x, Initial) else bs;
    if Above(line.status, Ratio(line), Find(bs1, x).value) then Store(bs1, x, WorstOf(line)) else bs1
  }

  /** The two dicts `compare_data` fills, keyed by step. */
  datatype Tally = Tally(status: map<int, int>, maxdiff: map<int, Buckets>)

  /** `__update_status`: the step's status becomes the worse of its own and
      the line's; the line is considered for its variable's bucket and,
      for a variable the table does not list, for the `*` bucket too. */
  function UpdateStatus(acc: Tally, variables: seq<string>, line: YuprLine): (r: Tally)
    ensures r.status.Keys == acc.status.Keys + {line.step}
    ensures r.maxdiff.Keys == acc.maxdiff.Keys + {line.step}
    ensures forall s :: s in acc.status && s != line.step ==> r.status[s] == acc.status[s]
    ensures forall s :: s in acc.maxdiff && s != line.step ==> r.maxdiff[s] == acc.maxdiff[s]
    ensures line.step in acc.status ==> r.status[line.step] == MaxInt(acc.status[line.step], line.status)
    ensures line.step !in acc.status ==> r.status[line.step] == line.status
  {
    var s := line.step;
    var status := if s in acc.status then MaxInt(acc.status[s], line.status) else line.status;
    var bs := if s in acc.maxdiff then acc.maxdiff[s] else [];
    var bs1 := Consider(bs, line.name, line);
    var bs2 := if line.name in variables then bs1 else Consider(bs1, "*", line);
    Tally(acc.status[s := status], acc.maxdiff[s := bs2])
  }

  /** The stored bucket for `x`, with `[0, -inf, -inf]` for a new one. */
  function Stored(bs: Buckets, x: string): Bucket
  {
    if Find(bs, x).Some? then Find(bs, x).value else Initial
  }

  /** A bucket is replaced by the line only when the line's status is at
      least the stored one and its ratio is strictly larger; a first line
      always fills a new bucket. */
  lemma ConsiderRule(bs: Buckets, x: string, line: YuprLine, y: string)
    requires line.status >= 0
    ensures var r := Consider(bs, x, line);
            && (y != x ==> Find(r, y) == Find(bs, y))
            && (Find(bs, x).None? ==> Find(r, x) == Some(WorstOf(line)))
            && (Find(bs, x).Some? && Above(line.status, Ratio(line), Find(bs, x).value) ==>
                  Find(r, x) == Some(WorstOf(line)))
            && (Find(bs, x).Some? && !Above(line.status, Ratio(line), Find(bs, x).value) ==>
                  Find(r, x) == Find(bs, x))
  {
  }

  /** Which buckets `__update_status` touches: the line's own variable,
      and `*` exactly when the table does not list that variable. */
  lemma UpdateStatusBuckets(acc: Tally, variables: seq<string>, line: YuprLine, y: string)
    requires line.status >= 0
    ensures var bs := if line.step in acc.maxdiff then acc.maxdiff[line.step] else [];
            var r := UpdateStatus(acc, variables, line).maxdiff[line.step];
            && (y != line.name && (y != "*" || line.name in variables) ==> Find(r, y) == Find(bs, y))
            && (y == line.name || (y == "*" && line.name !in variables) ==>
                  Find(r, y) == Some(if Above(line.status, Ratio(line), Stored(bs, y)) then WorstOf(line)
                                     else Stored(bs, y)))
  {
    var bs := if line.step in acc.maxdiff then acc.maxdiff[line.step] else [];
    var bs1 := Consider(bs, line.name, line);
    ConsiderRule(bs, line.name, line, y);
    if line.name !in variables {
      ConsiderRule(bs1, "*", line, y);
    }
  }

  // ---------------------------------------------------------------------
  // The compare loop

  function Pairs(xs: seq<Record>, ys: seq<Record>): nat
  {
    if |xs| <= |ys| then |xs| else |ys|
  }

  /** `__compare_entry` on each pair of `zip(xs, ys)` (the shorter file
      ends the pairing). */
  function CompareEntries(t: Table, logBlend: (real, real, real) -> real, xs: seq<Record>, ys: seq<Record>)
    : (r: seq<Result<YuprLine>>)
    requires WellShaped(t)
    ensures |r| == Pairs(xs, ys)
    ensures forall i :: 0 <= i < |r| ==> r[i] == CompareEntry(t, logBlend, xs[i], ys[i])
  {
    seq(Pairs(xs, ys), i requires 0 <= i < Pairs(xs, ys) => CompareEntry(t, logBlend, xs[i], ys[i]))
  }

  /** The loop of `compare_data` over the entries, stopping at the first
      exception. */
  function Tabulate(acc: Tally, variables: seq<string>, es: seq<Result<YuprLine>>): (r: (Tally, Outcome))
    decreases |es|
  {
    if |es| == 0 then (acc, Done)
    else
      match es[0]
      case Failure(e) => (acc, Raised(e))
      case Success(line) => Tabulate(UpdateStatus(acc, variables, line), variables, es[1..])
  }

  predicate AllSucceed(es: seq<Result<YuprLine>>)
  {
    forall i :: 0 <= i < |es| ==> es[i].Success?
  }

  /** The loop ends normally exactly when every pair compares. */
  lemma {:induction false} TabulateDone(acc: Tally, variables: seq<string>, es: seq<Result<YuprLine>>)
    ensures Tabulate(acc, variables, es).1 == Done <==> AllSucceed(es)
    decreases |es|
  {
    if |es| > 0 {
      assert forall i :: 1 <= i < |es| ==> es[1..][i - 1] == es[i];
      match es[0]
      case Failure(e) =>
      case Success(line) => TabulateDone(UpdateStatus(acc, variables, line), variables, es[1..]);
    }
  }

  /** Each step's status is no better than that of any of its lines, and
      never better than the one it had. */
  lemma {:induction false} TabulateWorst(acc: Tally, variables: seq<string>, es: seq<Result<YuprLine>>)
    requires AllSucceed(es)
    ensures var r := Tabulate(acc, variables, es).0;
            && (forall s :: s in acc.status ==> s in r.status && r.status[s] >= acc.status[s])
            && (forall i :: 0 <= i < |es| ==>
                  es[i].value.step in r.status && r.status[es[i].value.step] >= es[i].value.status)
    decreases |es|
  {
    if |es| > 0 {
      var line := es[0].value;
      var acc1 := UpdateStatus(acc, variables, line);
      assert forall i :: 1 <= i < |es| ==> es[1..][i - 1] == es[i];
      TabulateWorst(acc1, variables, es[1..]);
      var r := Tabulate(acc1, variables, es[1..]).0;
      assert Tabulate(acc, variables, es).0 == r;
      assert line.step in acc1.status && acc1.status[line.step] >= line.status;
      forall s | s in acc.status
        ensures s in r.status && r.status[s] >= acc.status[s]
      {
        assert s in acc1.status && acc1.status[s] >= acc.status[s];
      }
      forall i | 0 <= i < |es|
        ensures es[i].value.step in r.status && r.status[es[i].value.step] >= es[i].value.status
      {
        if i > 0 {
          assert es[i] == es[1..][i - 1];
        }
      }
    }
  }

  /** Each step's status is one it had or that of one of its lines, and
      only steps of compared lines get one. */
  lemma {:induction false} TabulateAttained(acc: Tally, variables: seq<string>, es: seq<Result<YuprLine>>)
    requires AllSucceed(es)
    ensures var r := Tabulate(acc, variables, es).0;
            forall s :: s in r.status ==>
              (s in acc.status && r.status[s] == acc.status[s]) ||
              exists i :: 0 <= i < |es| && es[i].value.step == s && r.status[s] == es[i].value.status
    decreases |es|
  {
    if |es| > 0 {
      var line := es[0].value;
      var acc1 := UpdateStatus(acc, variables, line);
      assert forall i :: 1 <= i < |es| ==> es[1..][i - 1] == es[i];
      TabulateAttained(acc1, variables, es[1..]);
      var r := Tabulate(acc1, variables, es[1..]).0;
      forall s | s in r.status
        ensures (s in acc.status && r.status[s] == acc.status[s]) ||
                exists i :: 0 <= i < |es| && es[i].value.step == s && r.status[s] == es[i].value.status
      {
        if s in acc1.status && r.status[s] == acc1.status[s] {
          if s == line.step && !(s in acc.status && acc1.status[s] == acc.status[s]) {
            assert es[0].value.step == s;
          }
        } else {
          var j :| 0 <= j < |es| - 1 && es[1..][j].value.step == s && r.status[s] == es[1..][j].value.status;
          assert es[j + 1] == es[1..][j];
        }
      }
    }
  }

  /** The steps of `a` that `b` has too: `set(steps1) & set(steps2)`. */
  function CommonSteps(a: seq<Record>, b: seq<Record>): set<int>
  {
    (set x | x in a :: x.step) * (set y | y in b :: y.step)
  }

  /** The comparison loop of `compare_data` over the records of the common
      steps. */
  function CompareRecords(t: Table, logBlend: (real, real, real) -> real, a: seq<Record>, b: seq<Record>)
    : (r: (Tally, Outcome))
    requires WellShaped(t)
  {
    var common := CommonSteps(a, b);
    Tabulate(Tally(map[], map[]), t.variables, CompareEntries(t, logBlend, Subline(a, common), Subline(b, common)))
  }

  /** The comparison ends normally exactly when every pair of records
      of the common steps has the same key (and the table has steps). */
  lemma CompareRecordsDone(t: Table, logBlend: (real, real, real) -> real, a: seq<Record>, b: seq<Record>)
    requires WellShaped(t)
    ensures var common := CommonSteps(a, b);
            var xs := Subline(a, common);
            var ys := Subline(b, common);
            CompareRecords(t, logBlend, a, b).1 == Done <==>
              KeysMatch(xs, ys) && (Pairs(xs, ys) == 0 || |t.steps| > 0)
  {
    var common := CommonSteps(a, b);
    var xs := Subline(a, common);
    var ys := Subline(b, common);
    var es := CompareEntries(t, logBlend, xs, ys);
    TabulateDone(Tally(map[], map[]), t.variables, es);
    assert CompareRecords(t, logBlend, a, b).1 == Done <==> AllSucceed(es);
    CompareEntriesSucceed(t, logBlend, xs, ys);
  }

  lemma CompareEntriesSucceed(t: Table, logBlend: (real, real, real) -> real, xs: seq<Record>, ys: seq<Record>)
    requires WellShaped(t)
    ensures AllSucceed(CompareEntries(t, logBlend, xs, ys)) <==>
              KeysMatch(xs, ys) && (Pairs(xs, ys) == 0 || |t.steps| > 0)
  {
    var es := CompareEntries(t, logBlend, xs, ys);
    if AllSucceed(es) {
      forall i | 0 <= i < Pairs(xs, ys)
        ensures SameKey(xs[i], ys[i]) && |t.steps| > 0
      {
        assert es[i].Success?;
      }
      assert KeysMatch(xs, ys);
      if Pairs(xs, ys) > 0 {
        assert es[0].Success?;
      }
    }
    if KeysMatch(xs, ys) && (Pairs(xs, ys) == 0 || |t.steps| > 0) {
      forall i | 0 <= i < |es|
        ensures es[i].Success?
      {
        assert SameKey(xs[i], ys[i]);
      }
    }
  }

  /** Paired records have the same `(var, step, level)`. */
  predicate KeysMatch(xs: seq<Record>, ys: seq<Record>)
  {
    forall i :: 0 <= i < Pairs(xs, ys) ==> SameKey(xs[i], ys[i])
  }

  /** Every step that gets a status is one both files have. */
  lemma CompareRecordsCommon(t: Table, logBlend: (real, real, real) -> real, a: seq<Record>, b: seq<Record>, s: int)
    requires WellShaped(t)
    ensures var (r, out) := CompareRecords(t, logBlend, a, b);
            out == Done && s in r.status ==>
              (exists x :: x in a && x.step == s) && (exists y :: y in b && y.step == s)
  {
    var common := CommonSteps(a, b);
    var xs := Subline(a, common);
    var ys := Subline(b, common);
    var es := CompareEntries(t, logBlend, xs, ys);
    var acc := Tally(map[], map[]);
    TabulateDone(acc, t.variables, es);
    var (r, out) := Tabulate(acc, t.variables, es);
    if out == Done && s in r.status {
      TabulateAttained(acc, t.variables, es);
      var i :| 0 <= i < |es| && es[i].value.step == s && r.status[s] == es[i].value.status;
      CompareEntryMeaning(t, logBlend, xs[i], ys[i]);
      SublineMembers(a, common);
      SublineMembers(b, common);
      assert xs[i] in xs && xs[i].step == s;
      assert ys[i] in ys && ys[i].step == s;
    }
  }

  /** When no entry raises, each step's status is no better than that of
      any of its lines. */
  lemma CompareRecordsWorst(t: Table, logBlend: (real, real, real) -> real, a: seq<Record>, b: seq<Record>, i: int)
    requires WellShaped(t)
    ensures var (r, out) := CompareRecords(t, logBlend, a, b);
            var common := CommonSteps(a, b);
            var xs := Subline(a, common);
            var ys := Subline(b, common);
            out == Done && 0 <= i < Pairs(xs, ys) ==>
              CompareEntry(t, logBlend, xs[i], ys[i]).Success? && xs[i].step in r.status &&
              r.status[xs[i].step] >= CompareEntry(t, logBlend, xs[i], ys[i]).value.status
  {
    var common := CommonSteps(a, b);
    var xs := Subline(a, common);
    var ys := Subline(b, common);
    var es := CompareEntries(t, logBlend, xs, ys);
    var acc := Tally(map[], map[]);
    TabulateDone(acc, t.variables, es);
    var (r, out) := Tabulate(acc, t.variables, es);
    if out == Done && 0 <= i < Pairs(xs, ys) {
      TabulateWorst(acc, t.variables, es);
      CompareEntryMeaning(t, logBlend, xs[i], ys[i]);
      assert es[i].value.step == xs[i].step;
    }
  }

  /** `max(self._status.values())`. */
  predicate IsMaxStatus(m: int, status: map<int, int>)
  {
    (forall s :: s in status ==> status[s] <= m) && (exists s :: s in status && status[s] == m)
  }

  /** The variable names the NaN filler covers in every step that was
      compared, in order: the table's variables, then `*`. */
  function FillNames(bs: Buckets, names: seq<string>): (r: Buckets)
    ensures forall y :: y in names ==> Find(r, y).Some?
    ensures forall y :: Find(bs, y).Some? ==> Find(r, y) == Find(bs, y)
    ensures forall y :: y !in names ==> Find(r, y) == Find(bs, y)
    decreases |names|
  {
    if |names| == 0 then bs
    else
      var bs1 := if Find(bs, names[0]).None? then Store(bs, names[0], Missing) else bs;
      FillNames(bs1, names[1..])
  }

  /** The loop after the comparison in `compare_data`: for the steps of the
      first file in order, fill the names not met with NaN, and stop at the
      first step that was not compared. */
  function Fill(maxdiff: map<int, Buckets>, steps: seq<int>, names: seq<string>): (r: map<int, Buckets>)
    ensures r.Keys == maxdiff.Keys
  {
    if |steps| == 0 || steps[0] !in maxdiff then maxdiff
    else Fill(maxdiff[steps[0] := FillNames(maxdiff[steps[0]], names)], steps[1..], names)
  }

  // ---------------------------------------------------------------------
  // The update loop

  /** Update-mode `__compare_values`: only a positive difference is passed
      on to `update_threshold`. */
  function UpdateValue(t: Table, roundUp: real -> real, logBlend: (real, real, real) -> real,
                       name: string, step: int, ref: real, value: real): (r: (Table, Outcome))
    requires WellShaped(t)
    ensures WellShaped(r.0) && SameSettings(r.0, t)
    ensures Difference(t.minval, ref, value) == 0.0 ==> r == (t, Done)
  {
    var diff := Difference(t.minval, ref, value);
    if diff > 0.0 then Update(t, roundUp, logBlend, name, step, diff) else (t, Done)
  }

  /** Update-mode `__compare_entry`: a key mismatch raises ValueError,
      otherwise minimum, maximum and mean are passed on in turn. */
  function UpdateEntry(t: Table, roundUp: real -> real, logBlend: (real, real, real) -> real,
                       ref: Record, data: Record): (r: (Table, Outcome))
    requires WellShaped(t)
    ensures WellShaped(r.0) && SameSettings(r.0, t)
    ensures !SameKey(ref, data) ==> r == (t, Raised(ValueError))
  {
    if !SameKey(ref, data) then (t, Raised(ValueError))
    else
      var (t1, o1) := UpdateValue(t, roundUp, logBlend, ref.name, ref.step, ref.minimum, data.minimum);
      if o1.Raised? then (t1, o1)
      else
        var (t2, o2) := UpdateValue(t1, roundUp, logBlend, ref.name, ref.step, ref.maximum, data.maximum);
        if o2.Raised? then (t2, o2)
        else UpdateValue(t2, roundUp, logBlend, ref.name, ref.step, ref.mean, data.mean)
  }

  /** The loop of `update_thresholds` over all paired records. */
  function UpdateLines(t: Table, roundUp: real -> real, logBlend: (real, real, real) -> real,
                       xs: seq<Record>, ys: seq<Record>): (r: (Table, Outcome))
    requires WellShaped(t)
    ensures WellShaped(r.0) && SameSettings(r.0, t)
    decreases |xs|
  {
    if |xs| == 0 || |ys| == 0 then (t, Done)
    else
      var (t1, out) := UpdateEntry(t, roundUp, logBlend, xs[0], ys[0]);
      if out.Raised? then (t1, out) else UpdateLines(t1, roundUp, logBlend, xs[1..], ys[1..])
  }

  /** One step of `UpdateLines` from the `k`-th pair. */
  lemma UpdateLinesStep(t: Table, roundUp: real -> real, logBlend: (real, real, real) -> real,
                        xs: seq<Record>, ys: seq<Record>, k: nat)
    requires WellShaped(t) && k < |xs| && k < |ys|
    ensures var (t1, out) := UpdateEntry(t, roundUp, logBlend, xs[k], ys[k]);
            UpdateLines(t, roundUp, logBlend, xs[k..], ys[k..])
              == if out.Raised? then (t1, out) else UpdateLines(t1, roundUp, logBlend, xs[k + 1..], ys[k + 1..])
  {
    assert xs[k..][0] == xs[k] && xs[k..][1..] == xs[k + 1..];
    assert ys[k..][0] == ys[k] && ys[k..][1..] == ys[k + 1..];
  }

  /** `update_thresholds`: the loop, then the default curve raised to the
      maximum of the others, once. */
  function UpdateAllLines(t: Table, roundUp: real -> real, logBlend: (real, real, real) -> real,
                          xs: seq<Record>, ys: seq<Record>): (r: (Table, Outcome))
    requires WellShaped(t)
    ensures WellShaped(r.0)
  {
    var (t1, out) := UpdateLines(t, roundUp, logBlend, xs, ys);
    if out.Raised? then (t1, out) else (UpdateDefault(t1, "*"), Done)
  }

  /** No tolerance is ever lowered by one value. */
  lemma UpdateValueNeverLowers(t: Table, roundUp: real -> real, logBlend: (real, real, real) -> real,
                               name: string, step: int, ref: real, value: real, w: string)
    requires WellShaped(t) && RoundsUp(roundUp) && t.increaseFactor >= 1.0
    ensures var r := UpdateValue(t, roundUp, logBlend, name, step, ref, value).0;
            forall i :: 0 <= i < |t.steps| ==> Curve(r, w)[i] >= Curve(t, w)[i]
  {
    var diff := Difference(t.minval, ref, value);
    if diff > 0.0 && |t.steps| > 0 {
      UpdateNeverLowers(t, roundUp, logBlend, name, step, diff, w);
    }
  }

  lemma UpdateEntryNeverLowers(t: Table, roundUp: real -> real, logBlend: (real, real, real) -> real,
                               ref: Record, data: Record, w: string)
    requires WellShaped(t) && RoundsUp(roundUp) && t.increaseFactor >= 1.0
    ensures var r := UpdateEntry(t, roundUp, logBlend, ref, data).0;
            forall i :: 0 <= i < |t.steps| ==> Curve(r, w)[i] >= Curve(t, w)[i]
  {
    if SameKey(ref, data) {
      var (t1, o1) := UpdateValue(t, roundUp, logBlend, ref.name, ref.step, ref.minimum, data.minimum);
      UpdateValueNeverLowers(t, roundUp, logBlend, ref.name, ref.step, ref.minimum, data.minimum, w);
      if !o1.Raised? {
        var (t2, o2) := UpdateValue(t1, roundUp, logBlend, ref.name, ref.step, ref.maximum, data.maximum);
        UpdateValueNeverLowers(t1, roundUp, logBlend, ref.name, ref.step, ref.maximum, data.maximum, w);
        if !o2.Raised? {
          UpdateValueNeverLowers(t2, roundUp, logBlend, ref.name, ref.step, ref.mean, data.mean, w);
        }
      }
    }
  }

  lemma {:induction false} UpdateLinesNeverLowers(t: Table, roundUp: real -> real, logBlend: (real, real, real) -> real,
                                                  xs: seq<Record>, ys: seq<Record>, w: string)
    requires WellShaped(t) && RoundsUp(roundUp) && t.increaseFactor >= 1.0
    ensures var r := UpdateLines(t, roundUp, logBlend, xs, ys).0;
            forall i :: 0 <= i < |t.steps| ==> Curve(r, w)[i] >= Curve(t, w)[i]
    decreases |xs|
  {
    if |xs| > 0 && |ys| > 0 {
      var (t1, out) := UpdateEntry(t, roundUp, logBlend, xs[0], ys[0]);
      UpdateEntryNeverLowers(t, roundUp, logBlend, xs[0], ys[0], w);
      if !out.Raised? {
        UpdateLinesNeverLowers(t1, roundUp, logBlend, xs[1..], ys[1..], w);
      }
    }
  }

  /** `update_thresholds` never lowers a tolerance any name reads, however
      it ends. */
  lemma UpdateAllLinesNeverLowers(t: Table, roundUp: real -> real, logBlend: (real, real, real) -> real,
                                  xs: seq<Record>, ys: seq<Record>, w: string)
    requires WellShaped(t) && RoundsUp(roundUp) && t.increaseFactor >= 1.0
    ensures var r := UpdateAllLines(t, roundUp, logBlend, xs, ys).0;
            forall i :: 0 <= i < |t.steps| ==> Curve(r, w)[i] >= Curve(t, w)[i]
  {
    UpdateLinesNeverLowers(t, roundUp, logBlend, xs, ys, w);
    var (t1, out) := UpdateLines(t, roundUp, logBlend, xs, ys);
    if !out.Raised? {
      var m := MaxCurves(t1, Curve(t1, "*"), t1.variables, "*");
      CurveAfterWithCurve(t1, "*", m, w);
      forall i | 0 <= i < |t.steps|
        ensures Curve(UpdateDefault(t1, "*"), w)[i] >= Curve(t, w)[i]
      {
        if IndexOf(t1.variables, w) == IndexOf(t1.variables, "*") {
          UpdateDefaultIsMax(t1, "*", i);
          CurveAfterWithCurve(t1, "*", m, "*");
        }
      }
    }
  }

  // ---------------------------------------------------------------------
  // The reason column of print_results

  /** What the reason column says: nothing, or the worst entry of a
      variable. */
  datatype Reason = NoReason | Because(name: string, worst: Bucket)

  /** The loop over `_maxdiff[step]` in `print_results`, starting from the
      entry `mmax` holds: `*` is skipped, the first entry is taken when
      `mmax` is unset, and a later entry replaces `mmax` when it is above
      it. */
  function PickWorst(bs: Buckets, mmax: Option<(string, Bucket)>): (r: Option<(string, Bucket)>)
    ensures r.Some? ==> r == mmax || (r.value in bs && r.value.0 != "*")
  {
    if |bs| == 0 then mmax
    else
      var (v, m) := bs[0];
      var next := if v == "*" then mmax
                  else if mmax.None? then Some((v, m))
                  else match m
                    case Worst(s, rel, _, _, _, _) => if Above(s, rel, mmax.value.1) then Some((v, m)) else mmax
                    case _ => mmax;
      var r := PickWorst(bs[1..], next);
      assert forall e :: e in bs[1..] ==> e in bs;
      r
  }

  /** `mmax[0] > 1`: only a FAIL entry is reported. */
  function ReasonOf(mmax: Option<(string, Bucket)>): Reason
  {
    if mmax.Some? && mmax.value.1.Worst? && mmax.value.1.status > 1 then Because(mmax.value.0, mmax.value.1)
    else NoReason
  }

  /** The reasons of `print_results` AS WRITTEN: `mmax` is a local of the
      whole function, so the entry picked for one FAIL step is carried into
      the next one. A step without a status raises KeyError. */
  function ReasonsAsWritten(steps: seq<int>, tally: Tally, mmax: Option<(string, Bucket)>)
    : (r: Result<seq<Reason>>)
    ensures r.Success? ==> |r.value| == |steps|
  {
    if |steps| == 0 then Success([])
    else if steps[0] !in tally.status then Failure(KeyError)
    else if tally.status[steps[0]] != 2 then
      match ReasonsAsWritten(steps[1..], tally, mmax)
      case Failure(e) => Failure(e)
      case Success(rest) => Success([NoReason] + rest)
    else if steps[0] !in tally.maxdiff then Failure(KeyError)
    else
      var picked := PickWorst(tally.maxdiff[steps[0]], mmax);
      match ReasonsAsWritten(steps[1..], tally, picked)
      case Failure(e) => Failure(e)
      case Success(rest) => Success([ReasonOf(picked)] + rest)
  }

  /** The reasons with `mmax` reset for every step, as the column intends:
      each FAIL step names the worst entry of its own. */
  function Reasons(steps: seq<int>, tally: Tally): (r: Result<seq<Reason>>)
    ensures r.Success? ==> |r.value| == |steps|
    ensures r.Success? ==> forall k :: 0 <= k < |steps| && r.value[k].Because? ==>
              && steps[k] in tally.maxdiff && steps[k] in tally.status && tally.status[steps[k]] == 2
              && (r.value[k].name, r.value[k].worst) in tally.maxdiff[steps[k]]
              && r.value[k].name != "*" && r.value[k].worst.Worst? && r.value[k].worst.status > 1
  {
    if |steps| == 0 then Success([])
    else if steps[0] !in tally.status then Failure(KeyError)
    else if tally.status[steps[0]] != 2 then
      match Reasons(steps[1..], tally)
      case Failure(e) => Failure(e)
      case Success(rest) =>
        var r := [NoReason] + rest;
        assert forall k :: 1 <= k < |steps| ==> r[k] == rest[k - 1] && steps[k] == steps[1..][k - 1];
        Success(r)
    else if steps[0] !in tally.maxdiff then Failure(KeyError)
    else
      var picked := PickWorst(tally.maxdiff[steps[0]], None);
      match Reasons(steps[1..], tally)
      case Failure(e) => Failure(e)
      case Success(rest) =>
        var r := [ReasonOf(picked)] + rest;
        assert forall k :: 1 <= k < |steps| ==> r[k] == rest[k - 1] && steps[k] == steps[1..][k - 1];
        Success(r)
  }

  /** Two FAIL steps whose worst entries belong to different variables, the
      later one with the smaller ratio. */
  function TwoFailingSteps(): Tally
  {
    Tally(map[1 := 2, 2 := 2],
          map[1 := [("A", Worst(2, 5.0, 5.0, 0, 1.0, Mean))],
              2 := [("B", Worst(2, 3.0, 3.0, 0, 1.0, Mean))]])
  }

  /** One FAIL step of `ReasonsAsWritten`, unfolded. */
  lemma ReasonsAsWrittenFailStep(steps: seq<int>, tally: Tally, mmax: Option<(string, Bucket)>)
    requires |steps| > 0 && steps[0] in tally.status && tally.status[steps[0]] == 2 && steps[0] in tally.maxdiff
    requires ReasonsAsWritten(steps[1..], tally, PickWorst(tally.maxdiff[steps[0]], mmax)).Success?
    ensures ReasonsAsWritten(steps, tally, mmax)
            == Success([ReasonOf(PickWorst(tally.maxdiff[steps[0]], mmax))]
                       + ReasonsAsWritten(steps[1..], tally, PickWorst(tally.maxdiff[steps[0]], mmax)).value)
  {
  }

  /** One FAIL step of `Reasons`, unfolded. */
  lemma ReasonsFailStep(steps: seq<int>, tally: Tally)
    requires |steps| > 0 && steps[0] in tally.status && tally.status[steps[0]] == 2 && steps[0] in tally.maxdiff
    requires Reasons(steps[1..], tally).Success?
    ensures Reasons(steps, tally)
            == Success([ReasonOf(PickWorst(tally.maxdiff[steps[0]], None))] + Reasons(steps[1..], tally).value)
  {
  }

  /** As written, the reason of step 2 names variable A, the worst entry of
      step 1, which step 2 does not even hold. */
  lemma ReasonsAsWrittenNameEarlierStep()
    ensures ReasonsAsWritten([1, 2], TwoFailingSteps(), None)
            == Success([Because("A", Worst(2, 5.0, 5.0, 0, 1.0, Mean)),
                        Because("A", Worst(2, 5.0, 5.0, 0, 1.0, Mean))])
    ensures ("A", Worst(2, 5.0, 5.0, 0, 1.0, Mean)) !in TwoFailingSteps().maxdiff[2]
  {
    var tally := TwoFailingSteps();
    var a := ("A", Worst(2, 5.0, 5.0, 0, 1.0, Mean));
    var b := ("B", Worst(2, 3.0, 3.0, 0, 1.0, Mean));
    var one: Buckets := [a];
    var two: Buckets := [b];
    var none: seq<int> := [];
    var steps: seq<int> := [1, 2];
    assert one[1..] == [] && two[1..] == [];
    assert steps[1..] == [2] && steps[1..][1..] == none;
    assert tally.maxdiff[1] == one && tally.maxdiff[2] == two;
    assert PickWorst(one, None) == Some(a);
    assert PickWorst(two, Some(a)) == Some(a);
    assert ReasonsAsWritten(none, tally, Some(a)) == Success([]);
    ReasonsAsWrittenFailStep(steps[1..], tally, Some(a));
    var ra: seq<Reason> := [ReasonOf(Some(a))];
    assert ra + [] == ra;
    assert ReasonsAsWritten(steps[1..], tally, Some(a)) == Success(ra);
    ReasonsAsWrittenFailStep(steps, tally, None);
    assert ra + ra == [ReasonOf(Some(a)), ReasonOf(Some(a))];
  }

  /** With `mmax` reset per step, each step names its own worst entry. */
  lemma ReasonsNameOwnStep()
    ensures Reasons([1, 2], TwoFailingSteps())
            == Success([Because("A", Worst(2, 5.0, 5.0, 0, 1.0, Mean)),
                        Because("B", Worst(2, 3.0, 3.0, 0, 1.0, Mean))])
  {
    var tally := TwoFailingSteps();
    var a := ("A", Worst(2, 5.0, 5.0, 0, 1.0, Mean));
    var b := ("B", Worst(2, 3.0, 3.0, 0, 1.0, Mean));
    var one: Buckets := [a];
    var two: Buckets := [b];
    var none: seq<int> := [];
    var steps: seq<int> := [1, 2];
    assert one[1..] == [] && two[1..] == [];
    assert steps[1..] == [2] && steps[1..][1..] == none;
    assert tally.maxdiff[1] == one && tally.maxdiff[2] == two;
    assert PickWorst(one, None) == Some(a);
    assert PickWorst(two, None) == Some(b);
    assert Reasons(none, tally) == Success([]);
    ReasonsFailStep(steps[1..], tally);
    var ra: seq<Reason> := [ReasonOf(Some(a))];
    var rb: seq<Reason> := [ReasonOf(Some(b))];
    assert rb + [] == rb;
    assert Reasons(steps[1..], tally) == Success(rb);
    ReasonsFailStep(steps, tally);
    assert ra + rb == [ReasonOf(Some(a)), ReasonOf(Some(b))];
  }

  /** A non-empty dict has a key. */
  lemma HasKey<V>(m: map<int, V>)
    requires |m| > 0
    ensures exists x :: x in m
  {
    if forall y :: y !in m {
      assert false;
    }
  }

  /** A non-empty set has an element. */
  lemma HasMember(s: set<int>)
    requires s != {}
    ensures exists x :: x in s
  {
    if forall y :: y !in s {
      assert false;
    }
  }

  /** `max(self._status.values())` over a non-empty dict. */
  method MaxStatus(status: map<int, int>) returns (m: int)
    requires |status| > 0
    ensures IsMaxStatus(m, status)
  {
    var keys := status.Keys;
    HasKey(status);
    var k0 :| k0 in keys;
    m := status[k0];
    keys := keys - {k0};
    while keys != {}
      invariant keys <= status.Keys
      invariant forall s :: s in status && s !in keys ==> status[s] <= m
      invariant exists s :: s in status && status[s] == m
      decreases |keys|
    {
      HasMember(keys);
      var k :| k in keys;
      m := MaxInt(m, status[k]);
      keys := keys - {k};
    }
  }

  /** Which of `compare_data` and `update_thresholds` ran last. */
  datatype RunMode = Unset | CompareMode | UpdateMode

  /** One step of `Tabulate` from the `k`-th entry. */
  lemma TabulateStep(acc: Tally, variables: seq<string>, es: seq<Result<YuprLine>>, k: nat)
    requires k < |es|
    ensures es[k].Failure? ==> Tabulate(acc, variables, es[k..]) == (acc, Raised(es[k].error))
    ensures es[k].Success? ==>
              Tabulate(acc, variables, es[k..]) == Tabulate(UpdateStatus(acc, variables, es[k].value), variables, es[k + 1..])
  {
    assert es[k..][0] == es[k] && es[k..][1..] == es[k + 1..];
  }

  /** The loop of `compare_data` over the records of the common steps,
      stopping at the first pair that raises. */
  method CompareLoop(t: Table, logBlend: (real, real, real) -> real, a: seq<Record>, b: seq<Record>)
    returns (acc: Tally, out: Outcome)
    requires WellShaped(t)
    ensures (acc, out) == CompareRecords(t, logBlend, a, b)
  {
    var common := CommonSteps(a, b);
    var es := CompareEntries(t, logBlend, Subline(a, common), Subline(b, common));
    ghost var whole := Tabulate(Tally(map[], map[]), t.variables, es);
    acc := Tally(map[], map[]);
    var k := 0;
    assert es[k..] == es;
    while k < |es|
      invariant 0 <= k <= |es|
      invariant Tabulate(acc, t.variables, es[k..]) == whole
    {
      TabulateStep(acc, t.variables, es, k);
      if es[k].Failure? {
        return acc, Raised(es[k].error);
      }
      acc := UpdateStatus(acc, t.variables, es[k].value);
      k := k + 1;
    }
    assert es[k..] == [];
    out := Done;
  }

  /** The loop of `compare_data` that fills the missing buckets. */
  method FillLoop(maxdiff: map<int, Buckets>, steps: seq<int>, names: seq<string>) returns (md: map<int, Buckets>)
    ensures md == Fill(maxdiff, steps, names)
  {
    md := maxdiff;
    var i := 0;
    assert steps[i..] == steps;
    while i < |steps|
      invariant 0 <= i <= |steps| && Fill(md, steps[i..], names) == Fill(maxdiff, steps, names)
    {
      assert steps[i..][0] == steps[i] && steps[i..][1..] == steps[i + 1..];
      if steps[i] !in md {
        return;
      }
      md := md[steps[i] := FillNames(md[steps[i]], names)];
      i := i + 1;
    }
    assert steps[i..] == [];
  }

  /** The Compare object: two files, the table they are judged against,
      and the per-step dicts the last comparison filled. */
  class Compare {
    const yu1: Yuprtest
    const yu2: Yuprtest
    const threshold: Thresholds
    var mode: RunMode
    var status: map<int, int>
    var maxdiff: map<int, Buckets>

    /** `__init__` with the files and the table already loaded. */
    constructor (yu1: Yuprtest, yu2: Yuprtest, threshold: Thresholds)
      ensures this.yu1 == yu1 && this.yu2 == yu2 && this.threshold == threshold
      ensures mode == Unset && status == map[] && maxdiff == map[]
    {
      this.yu1 := yu1;
      this.yu2 := yu2;
      this.threshold := threshold;
      mode := Unset;
      status := map[];
      maxdiff := map[];
    }

    /** `compare_data`: compare the records of the common steps, return
        the worst step status (ValueError when nothing was compared), and
        fill in NaN for the table's names a compared step never met. */
    method CompareData() returns (r: Result<int>)
      requires threshold.Valid()
      modifies this
      ensures mode == CompareMode
      ensures var (tally, out) := CompareRecords(threshold.Value(), threshold.logBlend, yu1.data, yu2.data);
              && status == tally.status
              && (out.Raised? ==> r == Failure(out.error) && maxdiff == tally.maxdiff)
              && (out == Done && |tally.status| == 0 ==> r == Failure(ValueError) && maxdiff == tally.maxdiff)
              && (out == Done && |tally.status| > 0 ==>
                    && r.Success? && IsMaxStatus(r.value, status)
                    && maxdiff == Fill(tally.maxdiff, yu1.Steps(), threshold.variables + ["*"]))
    {
      mode := CompareMode;
      var tally, out := CompareLoop(threshold.Value(), threshold.logBlend, yu1.data, yu2.data);
      status, maxdiff := tally.status, tally.maxdiff;
      if out.Raised? {
        return Failure(out.error);
      }
      if |status| == 0 {
        return Failure(ValueError);
      }
      var stat := MaxStatus(status);
      maxdiff := FillLoop(maxdiff, yu1.Steps(), threshold.variables + ["*"]);
      return Success(stat);
    }

    /** The update-mode `__compare_values` of one value pair. */
    method UpdateValueOf(name: string, step: int, ref: real, value: real) returns (out: Outcome)
      requires threshold.Valid()
      modifies threshold
      ensures threshold.Valid()
      ensures (threshold.Value(), out)
              == UpdateValue(old(threshold.Value()), threshold.roundUp, threshold.logBlend, name, step, ref, value)
    {
      var diff := Difference(threshold.minval, ref, value);
      if diff > 0.0 {
        out := threshold.UpdateThreshold(name, step, diff);
      } else {
        out := Done;
      }
    }

    /** The update-mode `__compare_entry` of one pair of records. */
    method UpdateEntryOf(ref: Record, data: Record) returns (out: Outcome)
      requires threshold.Valid()
      modifies threshold
      ensures threshold.Valid()
      ensures (threshold.Value(), out)
              == UpdateEntry(old(threshold.Value()), threshold.roundUp, threshold.logBlend, ref, data)
    {
      if !SameKey(ref, data) {
        return Raised(ValueError);
      }
      out := UpdateValueOf(ref.name, ref.step, ref.minimum, data.minimum);
      if out.Raised? {
        return;
      }
      out := UpdateValueOf(ref.name, ref.step, ref.maximum, data.maximum);
      if out.Raised? {
        return;
      }
      out := UpdateValueOf(ref.name, ref.step, ref.mean, data.mean);
    }

    /** `update_thresholds`: tune the table to every paired record, then
        raise the default curve to the maximum of the others. */
    method UpdateThresholds() returns (out: Outcome)
      requires threshold.Valid()
      modifies this, threshold
      ensures threshold.Valid() && mode == UpdateMode && status == old(status) && maxdiff == old(maxdiff)
      ensures (threshold.Value(), out)
              == UpdateAllLines(old(threshold.Value()), threshold.roundUp, threshold.logBlend, yu1.data, yu2.data)
    {
      mode := UpdateMode;
      var xs := yu1.data;
      var ys := yu2.data;
      ghost var whole := UpdateLines(threshold.Value(), threshold.roundUp, threshold.logBlend, xs, ys);
      var k := 0;
      assert xs[k..] == xs && ys[k..] == ys;
      while k < |xs| && k < |ys|
        invariant 0 <= k <= Pairs(xs, ys) && threshold.Valid()
        invariant mode == UpdateMode && status == old(status) && maxdiff == old(maxdiff)
        invariant UpdateLines(threshold.Value(), threshold.roundUp, threshold.logBlend, xs[k..], ys[k..]) == whole
      {
        UpdateLinesStep(threshold.Value(), threshold.roundUp, threshold.logBlend, xs, ys, k);
        out := UpdateEntryOf(xs[k], ys[k]);
        if out.Raised? {
          return;
        }
        k := k + 1;
      }
      assert xs[k..] == [] || ys[k..] == [];
      threshold.UpdateDefaultThresholds("*");
      out := Done;
    }

    /** `reset_thresholds`. */
    method ResetThresholds()
      requires threshold.Valid()
      modifies threshold
      ensures threshold.Valid() && threshold.Value() == Zeroed(old(threshold.Value()))
    {
      threshold.SetThresholdsToZero();
    }
  }
}
