/** A YUPRTEST statistics file (class `Yuprtest` of tools/ts_yuprtest.py):
    one record per variable, step and level with the minimum, maximum and
    mean of the field, after a header of blank and comment lines. */
module YuprtestFile {
  import opened Common

  /** A parsed line: `(var, step, level, min, max, mean)`; the grid
      positions of the minimum and maximum are dropped. */
  datatype Record = Record(name: string, step: int, level: int, minimum: real, maximum: real, mean: real)

  /** What `__parse_line` makes of a line that does not raise. */
  datatype Parsed = Skipped | Data(record: Record)

  /** A blank line, or one whose first field starts with `#`. (The fields
      of a split line are never empty.) */
  predicate Skippable(line: Line)
  {
    |line| == 0 || (|line[0].text| > 0 && line[0].text[0] == '#')
  }

  /** `__parse_line`: skip a blank or comment line; any other line needs
      exactly ten fields, of which fields 1 and 2 convert with `int` and
      fields 3, 6 and 9 with `float` (a failed conversion raises
      ValueError, as the wrong field count does). */
  function ParseLine(line: Line): (r: Result<Parsed>)
    ensures r == Success(Skipped) <==> Skippable(line)
    ensures r.Failure? ==> r.error == ValueError
    ensures !Skippable(line) && |line| != 10 ==> r.Failure?
    ensures r.Success? && r.value.Data? ==>
              var rec := r.value.record;
              && |line| == 10 && rec.name == line[0].text
              && line[1].asInt == Some(rec.step) && line[2].asInt == Some(rec.level)
              && line[3].asFloat == Some(rec.minimum) && line[6].asFloat == Some(rec.maximum)
              && line[9].asFloat == Some(rec.mean)
    ensures !Skippable(line) && |line| == 10 && line[1].asInt.Some? && line[2].asInt.Some?
            && line[3].asFloat.Some? && line[6].asFloat.Some? && line[9].asFloat.Some? ==>
              r.Success? && r.value.Data?
  {
    if Skippable(line) then Success(Skipped)
    else if |line| != 10 then Failure(ValueError)
    else if line[1].asInt.None? || line[2].asInt.None? || line[3].asFloat.None?
            || line[6].asFloat.None? || line[9].asFloat.None? then Failure(ValueError)
    else Success(Data(Record(line[0].text, line[1].asInt.value, line[2].asInt.value,
                             line[3].asFloat.value, line[6].asFloat.value, line[9].asFloat.value)))
  }

  /** The lists `__read_data` fills: the data lines, their records, and the
      count of skipped lines. */
  datatype Contents = Contents(raw: seq<Line>, data: seq<Record>, headerlines: int)

  /** The loop of `__read_data` from state `c` on: skipped lines are
      allowed while `header` holds, the first record ends the header, and a
      skipped line after it raises IOError. */
  function ReadFrom(c: Contents, header: bool, lines: seq<Line>): (r: Result<Contents>)
    decreases |lines|
  {
    if |lines| == 0 then Success(c)
    else match ParseLine(lines[0])
      case Failure(e) => Failure(e)
      case Success(Skipped) =>
        if header then ReadFrom(c.(headerlines := c.headerlines + 1), true, lines[1..])
        else Failure(IOError)
      case Success(Data(rec)) =>
        ReadFrom(Contents(c.raw + [lines[0]], c.data + [rec], c.headerlines), false, lines[1..])
  }

  /** The whole file read into a new object. */
  function Read(lines: seq<Line>): Result<Contents>
  {
    ReadFrom(Contents([], [], 0), true, lines)
  }

  // ---------------------------------------------------------------------
  // What a successful read holds

  predicate AllParse(lines: seq<Line>)
  {
    forall i :: 0 <= i < |lines| ==> ParseLine(lines[i]).Success?
  }

  /** No skipped line follows a data line. */
  predicate HeaderFirst(lines: seq<Line>)
  {
    forall i, j :: 0 <= i < j < |lines| && !Skippable(lines[i]) ==> !Skippable(lines[j])
  }

  predicate NoSkipped(lines: seq<Line>)
  {
    forall i :: 0 <= i < |lines| ==> !Skippable(lines[i])
  }

  /** The records of the data lines, in file order. */
  function Records(lines: seq<Line>): (r: seq<Record>)
    ensures |r| <= |lines|
  {
    if |lines| == 0 then []
    else
      match ParseLine(lines[0])
      case Success(Data(rec)) => [rec] + Records(lines[1..])
      case _ => Records(lines[1..])
  }

  /** The data lines themselves, in file order. */
  function DataLines(lines: seq<Line>): (r: seq<Line>)
    ensures |r| <= |lines|
  {
    if |lines| == 0 then []
    else
      match ParseLine(lines[0])
      case Success(Data(_)) => [lines[0]] + DataLines(lines[1..])
      case _ => DataLines(lines[1..])
  }

  lemma {:induction false} ReadFromResult(c: Contents, header: bool, lines: seq<Line>)
    ensures ReadFrom(c, header, lines).Success? <==>
              AllParse(lines) && (if header then HeaderFirst(lines) else NoSkipped(lines))
    ensures ReadFrom(c, header, lines).Success? ==>
              ReadFrom(c, header, lines).value ==
                Contents(c.raw + DataLines(lines), c.data + Records(lines),
                         c.headerlines + |lines| - |Records(lines)|)
    decreases |lines|
  {
    if |lines| > 0 {
      var tail := lines[1..];
      assert forall i :: 0 < i < |lines| ==> lines[i] == tail[i - 1];
      assert AllParse(lines) <==> ParseLine(lines[0]).Success? && AllParse(tail);
      match ParseLine(lines[0])
      case Failure(e) =>
      case Success(Skipped) =>
        if header {
          ReadFromResult(c.(headerlines := c.headerlines + 1), true, tail);
          assert HeaderFirst(lines) <==> HeaderFirst(tail);
        } else {
          assert !NoSkipped(lines);
        }
      case Success(Data(rec)) =>
        ReadFromResult(Contents(c.raw + [lines[0]], c.data + [rec], c.headerlines), false, tail);
        assert NoSkipped(lines) <==> NoSkipped(tail);
        assert HeaderFirst(lines) ==> NoSkipped(tail);
        assert NoSkipped(tail) ==> HeaderFirst(lines);
        assert c.raw + [lines[0]] + DataLines(tail) == c.raw + DataLines(lines);
        assert c.data + [rec] + Records(tail) == c.data + Records(lines);
    }
  }

  /** A file reads without error exactly when every line parses and every
      skipped line comes before the first record; the records are then
      those of the data lines in file order, and every other line is
      counted as a header line. */
  lemma ReadResult(lines: seq<Line>)
    ensures Read(lines).Success? <==> AllParse(lines) && HeaderFirst(lines)
    ensures Read(lines).Success? ==>
              Read(lines).value == Contents(DataLines(lines), Records(lines), |lines| - |Records(lines)|)
  {
    ReadFromResult(Contents([], [], 0), true, lines);
  }

  /** A blank or comment line after the first record raises IOError, once
      every line before it parses. */
  lemma {:induction false} SkippedAfterDataRaises(c: Contents, header: bool, lines: seq<Line>, i: int, j: int)
    requires 0 <= i < j < |lines| && ParseLine(lines[i]).Success? && !Skippable(lines[i])
    requires Skippable(lines[j])
    requires forall k :: 0 <= k < j ==> ParseLine(lines[k]).Success?
    ensures ReadFrom(c, header, lines) == Failure(IOError)
    decreases |lines|
  {
    var tail := lines[1..];
    assert ParseLine(lines[0]).Success?;
    if i == 0 {
      match ParseLine(lines[0])
      case Success(Data(rec)) =>
        NoHeaderRaises(Contents(c.raw + [lines[0]], c.data + [rec], c.headerlines), tail, j - 1);
    } else {
      match ParseLine(lines[0])
      case Success(Skipped) =>
        if header {
          SkippedAfterDataRaises(c.(headerlines := c.headerlines + 1), true, tail, i - 1, j - 1);
        }
      case Success(Data(rec)) =>
        NoHeaderRaises(Contents(c.raw + [lines[0]], c.data + [rec], c.headerlines), tail, j - 1);
    }
  }

  lemma {:induction false} NoHeaderRaises(c: Contents, lines: seq<Line>, j: int)
    requires 0 <= j < |lines| && Skippable(lines[j])
    requires forall k :: 0 <= k < j ==> ParseLine(lines[k]).Success?
    ensures ReadFrom(c, false, lines) == Failure(IOError)
    decreases |lines|
  {
    if j > 0 {
      match ParseLine(lines[0])
      case Success(Data(rec)) =>
        NoHeaderRaises(Contents(c.raw + [lines[0]], c.data + [rec], c.headerlines), lines[1..], j - 1);
      case Success(Skipped) =>
    }
  }

  // ---------------------------------------------------------------------
  // Subsets of the records

  /** `getSubline(S)`: the records whose step is in `S`, in file order. */
  function Subline(data: seq<Record>, s: set<int>): seq<Record>
  {
    if |data| == 0 then []
    else if data[0].step in s then [data[0]] + Subline(data[1..], s)
    else Subline(data[1..], s)
  }

  /** The selection holds exactly the records of the chosen steps. */
  lemma {:induction false} SublineMembers(data: seq<Record>, s: set<int>)
    ensures forall x :: x in Subline(data, s) <==> x in data && x.step in s
  {
    if |data| > 0 {
      SublineMembers(data[1..], s);
      assert forall x :: x in data <==> x == data[0] || x in data[1..];
    }
  }

  /** The selection keeps file order: it distributes over concatenation. */
  lemma {:induction false} SublineAppend(a: seq<Record>, b: seq<Record>, s: set<int>)
    ensures Subline(a + b, s) == Subline(a, s) + Subline(b, s)
  {
    if |a| == 0 {
      assert a + b == b;
    } else {
      assert (a + b)[0] == a[0] && (a + b)[1..] == a[1..] + b;
      SublineAppend(a[1..], b, s);
    }
  }

  /** Selecting every step a file has gives back the whole file. */
  lemma {:induction false} SublineOfAllSteps(data: seq<Record>, s: set<int>)
    requires forall x :: x in data ==> x.step in s
    ensures Subline(data, s) == data
  {
    if |data| > 0 {
      assert forall x :: x in data[1..] ==> x in data;
      SublineOfAllSteps(data[1..], s);
    }
  }

  /** `column(data, 0)`. */
  function Names(data: seq<Record>): (r: seq<string>)
    ensures forall v :: v in r <==> exists i :: 0 <= i < |data| && data[i].name == v
  {
    var r := seq(|data|, i requires 0 <= i < |data| => data[i].name);
    assert forall i :: 0 <= i < |data| ==> r[i] == data[i].name;
    r
  }

  /** `column(data, 1)`. */
  function StepsOf(data: seq<Record>): (r: seq<int>)
    ensures forall s :: s in r <==> exists i :: 0 <= i < |data| && data[i].step == s
  {
    var r := seq(|data|, i requires 0 <= i < |data| => data[i].step);
    assert forall i :: 0 <= i < |data| ==> r[i] == data[i].step;
    r
  }

  /** `column(data, 2)`. */
  function LevelsOf(data: seq<Record>): (r: seq<int>)
    ensures forall l :: l in r <==> exists i :: 0 <= i < |data| && data[i].level == l
  {
    var r := seq(|data|, i requires 0 <= i < |data| => data[i].level);
    assert forall i :: 0 <= i < |data| ==> r[i] == data[i].level;
    r
  }

  /** The Yuprtest object: the data lines, their records, the header-line
      count, and the cursor of the iterator. */
  class Yuprtest {
    var raw: seq<Line>
    var data: seq<Record>
    var headerlines: int
    var lineno: int

    /** The object before `__read_data` runs. */
    constructor ()
      ensures raw == [] && data == [] && headerlines == 0 && lineno == 0
    {
      raw := [];
      data := [];
      headerlines := 0;
      lineno := 0;
    }

    /** `__read_data` over the split lines of the file. On an exception the
        object is left as it was. */
    method ReadData(lines: seq<Line>) returns (out: Outcome)
      modifies this
      ensures var r := ReadFrom(Contents(old(raw), old(data), old(headerlines)), true, lines);
              && (r.Success? ==> out == Done && Contents(raw, data, headerlines) == r.value)
              && (r.Failure? ==> out == Raised(r.error) && raw == old(raw) && data == old(data)
                                 && headerlines == old(headerlines))
      ensures lineno == old(lineno)
    {
      ghost var whole := ReadFrom(Contents(raw, data, headerlines), true, lines);
      var c := Contents(raw, data, headerlines);
      var header := true;
      var k := 0;
      assert lines[k..] == lines;
      while k < |lines|
        invariant 0 <= k <= |lines|
        invariant ReadFrom(c, header, lines[k..]) == whole
      {
        assert lines[k..][0] == lines[k] && lines[k..][1..] == lines[k + 1..];
        var data := ParseLine(lines[k]);
        match data {
          case Failure(e) =>
            return Raised(e);
          case Success(Skipped) =>
            if !header {
              return Raised(IOError);
            }
            c := c.(headerlines := c.headerlines + 1);
          case Success(Data(rec)) =>
            header := false;
            c := Contents(c.raw + [lines[k]], c.data + [rec], c.headerlines);
        }
        k := k + 1;
      }
      assert lines[k..] == [];
      raw, data, headerlines := c.raw, c.data, c.headerlines;
      return Done;
    }

    /** `next()`: the record at the cursor, or StopIteration at the end. */
    method Next() returns (r: Result<Record>)
      requires 0 <= lineno
      modifies this
      ensures old(lineno) < |data| ==> r == Success(data[old(lineno)]) && lineno == old(lineno) + 1
      ensures old(lineno) >= |data| ==> r == Failure(StopIteration) && lineno == old(lineno)
      ensures raw == old(raw) && data == old(data) && headerlines == old(headerlines)
    {
      if lineno < |data| {
        lineno := lineno + 1;
        return Success(data[lineno - 1]);
      }
      return Failure(StopIteration);
    }

    /** The `variables` property: the distinct names, sorted. */
    function Variables(): (r: seq<string>)
      reads this
      ensures StrictlySorted(r, StrLess)
      ensures forall v :: v in r <==> exists i :: 0 <= i < |data| && data[i].name == v
    {
      StringOrderIsStrictTotal();
      SortedSet(Names(data), StrLess)
    }

    /** The `steps` property: the distinct steps, sorted. */
    function Steps(): (r: seq<int>)
      reads this
      ensures StrictlySorted(r, IntLess)
      ensures forall s :: s in r <==> exists i :: 0 <= i < |data| && data[i].step == s
    {
      IntOrderIsStrictTotal();
      SortedSet(StepsOf(data), IntLess)
    }

    /** The `levels` property: the distinct levels, sorted. */
    function Levels(): (r: seq<int>)
      reads this
      ensures StrictlySorted(r, IntLess)
      ensures forall l :: l in r <==> exists i :: 0 <= i < |data| && data[i].level == l
    {
      IntOrderIsStrictTotal();
      SortedSet(LevelsOf(data), IntLess)
    }
  }
}
