/** The log checker of tools/filechecker.py: a pattern searches a text line
    by line, remembers how many lines it hit and where it first hit, and
    turns "found" or "not found" into a status by its kind; a `FileChecker`
    reports the most severe status of its patterns. The compiled regular
    expression of a pattern is its `search` predicate on one line. */
module Filechecker {
  import opened Common

  /** The subclasses of `Pattern`. */
  datatype Kind = Occurrence | Error | Warning | OccurrenceCrash

  /** `_check_match`, `_check_ok`, `_check_failed` and `_check_crash`. */
  const MatchCode := 0
  const OkCode := 10
  const FailedCode := 20
  const CrashCode := 30

  /** `pattern_match()` when found, `pattern_no_match()` otherwise, as each
      subclass defines them. */
  function Status(kind: Kind, found: bool): (s: int)
    ensures s in {MatchCode, FailedCode, CrashCode}
    ensures s == CrashCode <==> kind == OccurrenceCrash && !found
    ensures s == FailedCode <==> (kind == Occurrence && !found) || (kind == Error && found)
  {
    match kind
    case Occurrence => if found then MatchCode else FailedCode
    case OccurrenceCrash => if found then MatchCode else CrashCode
    case Error => if found then FailedCode else MatchCode
    case Warning => MatchCode
  }

  /** What `match` is given: a string, split on newlines, or a list of
      lines as `readlines` returns it. */
  datatype Text = Str(s: string) | LineList(lines: seq<string>)

  function TextLines(t: Text): seq<string>
  {
    match t
    case Str(s) => Split(s, '\n')
    case LineList(lines) => lines
  }

  /** Some line is hit. */
  predicate HitOnce(lines: seq<string>, search: string -> bool)
  {
    exists i :: 0 <= i < |lines| && search(lines[i])
  }

  /** `pattern_hits`: the number of lines hit. */
  function HitCount(lines: seq<string>, search: string -> bool): (n: nat)
    ensures n <= |lines|
  {
    if |lines| == 0 then 0
    else (if search(lines[|lines| - 1]) then 1 else 0) + HitCount(lines[..|lines| - 1], search)
  }

  /** `first_line_hit`: the 1-based number of the first line hit, or the
      number of lines when none is. */
  function FirstHitLine(lines: seq<string>, search: string -> bool): (n: nat)
    ensures n <= |lines|
  {
    if |lines| == 0 then 0
    else if search(lines[0]) then 1
    else 1 + FirstHitLine(lines[1..], search)
  }

  lemma {:induction false} HitCountPositive(lines: seq<string>, search: string -> bool)
    ensures HitCount(lines, search) > 0 <==> HitOnce(lines, search)
  {
    if |lines| > 0 {
      var init := lines[..|lines| - 1];
      HitCountPositive(init, search);
      if HitOnce(lines, search) && !search(lines[|lines| - 1]) {
        var i :| 0 <= i < |lines| && search(lines[i]);
        assert init[i] == lines[i];
      }
      if HitOnce(init, search) {
        var i :| 0 <= i < |init| && search(init[i]);
        assert lines[i] == init[i];
      }
    }
  }

  /** `first_line_hit` names the first line hit, and every line before it
      misses. */
  lemma {:induction false} FirstHitLineIsFirst(lines: seq<string>, search: string -> bool)
    ensures var n := FirstHitLine(lines, search);
            && (HitOnce(lines, search) ==> 1 <= n && search(lines[n - 1]))
            && (forall j :: 0 <= j < n - 1 ==> !search(lines[j]))
            && (!HitOnce(lines, search) ==> n == |lines|)
  {
    if |lines| > 0 && !search(lines[0]) {
      var rest := lines[1..];
      FirstHitLineIsFirst(rest, search);
      var n := FirstHitLine(lines, search);
      forall j | 0 <= j < n - 1
        ensures !search(lines[j])
      {
        if j > 0 {
          assert lines[j] == rest[j - 1];
        }
      }
      if HitOnce(lines, search) {
        var i :| 0 <= i < |lines| && search(lines[i]);
        assert rest[i - 1] == lines[i];
      }
      if HitOnce(rest, search) {
        var i :| 0 <= i < |rest| && search(rest[i]);
        assert lines[i + 1] == rest[i];
      }
    }
  }

  /** Extending the lines by one hits iff the old lines or the new one do. */
  lemma HitOnceStep(lines: seq<string>, k: nat, search: string -> bool)
    requires k < |lines|
    ensures HitOnce(lines[..k + 1], search) <==> HitOnce(lines[..k], search) || search(lines[k])
  {
    if HitOnce(lines[..k + 1], search) && !search(lines[k]) {
      var i :| 0 <= i < k + 1 && search(lines[..k + 1][i]);
      assert lines[..k][i] == lines[..k + 1][i];
    }
    if HitOnce(lines[..k], search) {
      var i :| 0 <= i < k && search(lines[..k][i]);
      assert lines[..k + 1][i] == lines[..k][i];
    }
    if search(lines[k]) {
      assert lines[..k + 1][k] == lines[k];
    }
  }

  /** The loop of `match`: whether some line is hit, how many are, and the
      line of the first hit. */
  method ScanLines(lines: seq<string>, search: string -> bool)
    returns (hitOnce: bool, hits: nat, firstLine: nat)
    ensures hitOnce <==> HitOnce(lines, search)
    ensures hits == HitCount(lines, search)
    ensures firstLine == FirstHitLine(lines, search)
  {
    hits := 0;
    firstLine := 0;
    hitOnce := false;
    FirstHitLineIsFirst(lines, search);
    for k := 0 to |lines|
      invariant hits == HitCount(lines[..k], search)
      invariant hitOnce <==> HitOnce(lines[..k], search)
      invariant !hitOnce ==> firstLine == k
      invariant hitOnce ==> firstLine == FirstHitLine(lines, search)
    {
      assert lines[..k + 1][..k] == lines[..k];
      HitOnceStep(lines, k, search);
      if !hitOnce {
        firstLine := firstLine + 1;
      }
      if search(lines[k]) {
        if !hitOnce {
          FirstHitLineAt(lines, search, k);
        }
        hitOnce := true;
        hits := hits + 1;
      }
    }
    assert lines[..|lines|] == lines;
  }

  /** One pattern object. */
  class Pattern {
    /** The name used in the log messages. */
    const description: string
    const searchPattern: string
    const kind: Kind
    /** `re.compile(search_pattern).search` on one line. */
    const search: string -> bool
    var patternHits: nat
    var firstLineHit: nat
    var verbose: int

    /** `__init__(description, search_pattern)` of the subclass `kind`;
        the counters are set by the first `match`. */
    constructor (kind: Kind, description: string, searchPattern: string, search: string -> bool)
      ensures this.kind == kind && this.description == description
      ensures this.searchPattern == searchPattern && this.search == search
      ensures patternHits == 0 && firstLineHit == 0 && verbose == 0
    {
      this.kind := kind;
      this.description := description;
      this.searchPattern := searchPattern;
      this.search := search;
      patternHits, firstLineHit, verbose := 0, 0, 0;
    }

    /** `match(text)`: whether some line is hit, storing the count of
        lines hit and the line of the first hit. */
    method Match(text: Text) returns (hitOnce: bool)
      modifies this
      ensures hitOnce <==> HitOnce(TextLines(text), search)
      ensures patternHits == HitCount(TextLines(text), search)
      ensures firstLineHit == FirstHitLine(TextLines(text), search)
      ensures verbose == old(verbose)
    {
      var hits, firstLine;
      hitOnce, hits, firstLine := ScanLines(TextLines(text), search);
      firstLineHit := firstLine;
      patternHits := hits;
    }

    /** `check(text, verbose)`: the status of this pattern's kind for
        whether the text was hit. */
    method Check(text: Text, verbose: int) returns (s: int)
      modifies this
      ensures s == Status(kind, HitOnce(TextLines(text), search))
      ensures patternHits == HitCount(TextLines(text), search)
      ensures firstLineHit == FirstHitLine(TextLines(text), search)
      ensures this.verbose == verbose
    {
      this.verbose := verbose;
      var found := Match(text);
      s := Status(kind, found);
    }
  }

  /** The first hit after `k` lines that missed is line `k + 1`. */
  lemma {:induction false} FirstHitLineAt(lines: seq<string>, search: string -> bool, k: nat)
    requires k < |lines| && search(lines[k])
    requires forall j :: 0 <= j < k ==> !search(lines[j])
    ensures FirstHitLine(lines, search) == k + 1
  {
    if k > 0 {
      assert forall j :: 0 <= j < k - 1 ==> lines[1..][j] == lines[j + 1];
      FirstHitLineAt(lines[1..], search, k - 1);
    }
  }

  /** The running maximum of `check_patterns`, starting from 0, over the
      kinds and searches of the patterns. */
  function Severest(ps: seq<(Kind, string -> bool)>, lines: seq<string>): (r: int)
    ensures r >= MatchCode
  {
    if |ps| == 0 then MatchCode
    else MaxIntOf(Severest(ps[..|ps| - 1], lines), Status(ps[|ps| - 1].0, HitOnce(lines, ps[|ps| - 1].1)))
  }

  /** The result is at least every pattern's status and is 0 or one of
      them. */
  lemma {:induction false} SeverestIsMax(ps: seq<(Kind, string -> bool)>, lines: seq<string>)
    ensures forall i :: 0 <= i < |ps| ==> Severest(ps, lines) >= Status(ps[i].0, HitOnce(lines, ps[i].1))
    ensures Severest(ps, lines) == MatchCode
            || exists i :: 0 <= i < |ps| && Severest(ps, lines) == Status(ps[i].0, HitOnce(lines, ps[i].1))
  {
    if |ps| > 0 {
      SeverestIsMax(ps[..|ps| - 1], lines);
      assert forall i :: 0 <= i < |ps| - 1 ==> ps[..|ps| - 1][i] == ps[i];
    }
  }

  /** One more pattern raises the running maximum to its status. */
  lemma SeverestStep(ps: seq<(Kind, string -> bool)>, k: nat, lines: seq<string>)
    requires k < |ps|
    ensures Severest(ps[..k + 1], lines) == MaxIntOf(Severest(ps[..k], lines), Status(ps[k].0, HitOnce(lines, ps[k].1)))
  {
    assert ps[..k + 1][..k] == ps[..k];
  }

  function MaxIntOf(a: int, b: int): (r: int)
    ensures r >= a && r >= b && (r == a || r == b)
  {
    if a < b then b else a
  }

  /** The checker passes (status 0) exactly when every occurrence pattern
      was found and no error pattern was. */
  lemma {:induction false} SeverestZero(ps: seq<(Kind, string -> bool)>, lines: seq<string>)
    ensures Severest(ps, lines) == MatchCode
            <==> forall i :: 0 <= i < |ps| ==>
                   ((ps[i].0 == Occurrence || ps[i].0 == OccurrenceCrash) ==> HitOnce(lines, ps[i].1))
                   && (ps[i].0 == Error ==> !HitOnce(lines, ps[i].1))
  {
    SeverestIsMax(ps, lines);
  }

  /** Adding a warning pattern never changes the result. */
  lemma WarningsNeverCount(ps: seq<(Kind, string -> bool)>, search: string -> bool, lines: seq<string>)
    ensures Severest(ps + [(Warning, search)], lines) == Severest(ps, lines)
  {
    assert (ps + [(Warning, search)])[..|ps|] == ps;
  }

  /** The three patterns of the unit tests, whose regular expressions are
      plain words. */
  function TestPatterns(): seq<(Kind, string -> bool)>
  {
    [(Warning, (l: string) => Contains(l, "WARNING")),
     (Error, (l: string) => Contains(l, "ERROR")),
     (Occurrence, (l: string) => Contains(l, "OCCURRENCE"))]
  }

  /** Only an `OccurrenceCrash` pattern can report a crash. */
  lemma NoCrashWithoutCrashPattern(ps: seq<(Kind, string -> bool)>, lines: seq<string>)
    requires forall i :: 0 <= i < |ps| ==> ps[i].0 != OccurrenceCrash
    ensures Severest(ps, lines) in {MatchCode, FailedCode}
  {
    SeverestIsMax(ps, lines);
  }

  /** A one-line text with an error fails the test patterns. */
  lemma LineWithErrorFails(t: string)
    requires '\n' !in t && Contains(t, "ERROR")
    ensures Severest(TestPatterns(), TextLines(Str(t))) == FailedCode
  {
    SplitWithoutSeparator(t, '\n');
    var ps := TestPatterns();
    var lines := [t];
    assert ps[1].1(lines[0]);
    NoCrashWithoutCrashPattern(ps, lines);
  }

  /** A one-line text without the occurrence fails the test patterns. */
  lemma LineWithoutOccurrenceFails(t: string)
    requires '\n' !in t && !Contains(t, "OCCURRENCE")
    ensures Severest(TestPatterns(), TextLines(Str(t))) == FailedCode
  {
    SplitWithoutSeparator(t, '\n');
    var ps := TestPatterns();
    assert !ps[2].1(t);
    assert !HitOnce([t], ps[2].1);
    NoCrashWithoutCrashPattern(ps, [t]);
  }

  /** `test_fail`: an error in the text, or a missing occurrence, fails. */
  lemma FailingTexts()
    ensures Severest(TestPatterns(), TextLines(Str("qwerqwWARNINGerqwerOCCURRENCEwwegERRORwerg"))) == FailedCode
    ensures Severest(TestPatterns(), TextLines(Str("WARNING"))) == FailedCode
  {
    ContainsAt("qwerqwWARNINGerqwerOCCURRENCEwwegERRORwerg", "ERROR", 33);
    LineWithErrorFails("qwerqwWARNINGerqwerOCCURRENCEwwegERRORwerg");
    if Contains("WARNING", "OCCURRENCE") {
      ContainsShorter("WARNING", "OCCURRENCE");
    }
    LineWithoutOccurrenceFails("WARNING");
  }

  /** The kind and search of every pattern in a list. */
  function Specs(ps: seq<Pattern>): (r: seq<(Kind, string -> bool)>)
    ensures |r| == |ps| && forall i :: 0 <= i < |ps| ==> r[i] == (ps[i].kind, ps[i].search)
  {
    seq(|ps|, i requires 0 <= i < |ps| => (ps[i].kind, ps[i].search))
  }

  /** The fields `check` leaves in a pattern. */
  predicate Checked(p: Pattern, lines: seq<string>, verbose: int)
    reads p
  {
    p.patternHits == HitCount(lines, p.search)
    && p.firstLineHit == FirstHitLine(lines, p.search)
    && p.verbose == verbose
  }

  /** The `FileChecker` object. */
  class FileChecker {
    var patternList: seq<Pattern>

    constructor ()
      ensures patternList == []
    {
      patternList := [];
    }

    /** `add_pattern(pattern)`. */
    method AddPattern(p: Pattern)
      modifies this
      ensures patternList == old(patternList) + [p]
    {
      patternList := patternList + [p];
    }

    /** `add_pattern_list(pattern_list)`. */
    method AddPatternList(ps: seq<Pattern>)
      modifies this
      ensures patternList == old(patternList) + ps
    {
      patternList := patternList + ps;
    }

    /** `check_patterns(verbose, text)`: every pattern is checked against
        the text, and the most severe status is returned (0 for an empty
        list); every pattern is left with the counts of this text. */
    method CheckPatterns(verbose: int, text: Text) returns (result: int)
      modifies set p | p in patternList
      ensures result == Severest(Specs(patternList), TextLines(text))
      ensures forall p :: p in patternList ==> Checked(p, TextLines(text), verbose)
    {
      var lines := TextLines(text);
      ghost var specs := Specs(patternList);
      result := MatchCode;
      for k := 0 to |patternList|
        invariant result == Severest(specs[..k], lines)
        invariant forall j :: 0 <= j < k ==> Checked(patternList[j], lines, verbose)
      {
        var pattern := patternList[k];
        var patternResult := pattern.Check(text, verbose);
        assert Checked(pattern, lines, verbose);
        SeverestStep(specs, k, lines);
        if result < patternResult {
          result := patternResult;
        }
      }
      assert specs[..|patternList|] == specs;
    }

    /** `check(logfile, verbose)` as written: a log that cannot be read
        makes `read_file` evaluate a `verbose` that is not defined in its
        scope, so the call raises NameError. */
    method Check(logfile: Option<seq<string>>, verbose: int) returns (r: Result<int>)
      modifies set p | p in patternList
      ensures logfile.None? ==> r == Failure(NameError)
      ensures logfile.Some? ==> r == Success(Severest(Specs(patternList), logfile.value))
      ensures logfile.Some? ==> forall p :: p in patternList ==> Checked(p, logfile.value, verbose)
      ensures logfile.None? ==> forall p :: p in patternList ==> unchanged(p)
    {
      if logfile.None? {
        return Failure(NameError);
      }
      var result := CheckPatterns(verbose, LineList(logfile.value));
      return Success(result);
    }

    /** `check(logfile, verbose)` as its comment intends: a log that cannot
        be read is reported as a crash. */
    method CheckOrCrash(logfile: Option<seq<string>>, verbose: int) returns (r: int)
      modifies set p | p in patternList
      ensures logfile.None? ==> r == CrashCode
      ensures logfile.Some? ==> r == Severest(Specs(patternList), logfile.value)
      ensures logfile.Some? ==> forall p :: p in patternList ==> Checked(p, logfile.value, verbose)
      ensures logfile.None? ==> forall p :: p in patternList ==> unchanged(p)
    {
      if logfile.None? {
        return CrashCode;
      }
      r := CheckPatterns(verbose, LineList(logfile.value));
    }
  }
}
