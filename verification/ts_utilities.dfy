/** The pure helpers of tools/ts_utilities.py: directory paths, the
    names of the status codes, and the reading of boolean options. */
module TsUtilities {
  import opened Common

  // ---------------------------------------------------------------------
  // dir_path

  predicate EndsWith(s: string, c: char)
  {
    |s| > 0 && s[|s| - 1] == c
  }

  /** Whether `re.match('^(.*)[/]$', path)` succeeds: `.` does not match a
      newline, and `$` also matches just before a final newline, so the
      slash must be the last character or the one before a final newline,
      with no newline before it. */
  predicate SlashPatternMatches(path: string)
  {
    || (EndsWith(path, '/') && '\n' !in path[..|path| - 1])
    || (|path| >= 2 && path[|path| - 2..] == "/\n" && '\n' !in path[..|path| - 2])
  }

  /** `dir_path(path)` as written: the path unchanged when the pattern
      matches, with a `/` appended otherwise. */
  function DirPathAsWritten(path: string): (r: string)
    ensures SlashPatternMatches(path) ==> r == path
    ensures !SlashPatternMatches(path) ==> r == path + "/"
  {
    if SlashPatternMatches(path) then path else path + "/"
  }

  /** The pattern lets a path ending in a slash and a newline through
      unchanged, so the result need not end with `/`; and a path with a
      newline before its final slash gains a slash on every call. */
  lemma DirPathAsWrittenMissesSlash()
    ensures DirPathAsWritten("a/\n") == "a/\n" && !EndsWith(DirPathAsWritten("a/\n"), '/')
    ensures DirPathAsWritten("a\n/") == "a\n//"
    ensures DirPathAsWritten(DirPathAsWritten("a\n/")) == "a\n///"
  {
    assert "a/\n"[1..] == "/\n";
    assert "a\n//"[2..] == "//";
  }

  /** `dir_path(path)` as its description intends: a trailing slash is
      added when not present. */
  function DirPath(path: string): (r: string)
    ensures EndsWith(r, '/')
    ensures EndsWith(path, '/') ==> r == path
    ensures !EndsWith(path, '/') ==> r == path + "/"
  {
    if EndsWith(path, '/') then path else path + "/"
  }

  /** Decorating twice is decorating once. */
  lemma DirPathIdempotent(path: string)
    ensures DirPath(DirPath(path)) == DirPath(path)
  {
  }

  /** On a path without newlines the two agree. */
  lemma DirPathAgrees(path: string)
    requires '\n' !in path
    ensures DirPathAsWritten(path) == DirPath(path)
  {
    if EndsWith(path, '/') {
      assert forall c :: c in path[..|path| - 1] ==> c in path;
    }
  }

  // ---------------------------------------------------------------------
  // Status names

  /** `status_str(status)`. */
  function StatusStr(status: int): (r: string)
    ensures r == "UNKNOWN" <==> status !in {0, 10, 15, 20, 30}
  {
    if status == 0 then "MATCH"
    else if status == 10 then "OK"
    else if status == 15 then "SKIP"
    else if status == 20 then "FAIL"
    else if status == 30 then "CRASH"
    else "UNKNOWN"
  }

  /** Every known status has a name of its own. */
  lemma StatusStrInjective(a: int, b: int)
    requires a in {0, 10, 15, 20, 30} && b in {0, 10, 15, 20, 30} && a != b
    ensures StatusStr(a) != StatusStr(b)
  {
  }

  /** The terminal color of a status (green, white, red, or a red
      background for an unknown code), as its decimal digits. */
  function ColorCode(status: int): (r: string)
    ensures status in {0, 10} <==> r == "32"
    ensures status in {20, 30} <==> r == "31"
  {
    if status == 0 || status == 10 then "32"
    else if status == 15 then "37"
    else if status == 20 || status == 30 then "31"
    else "41"
  }

  const Escape: char := 27 as char

  /** `pretty_status_str(status, color, bold)`. */
  function PrettyStatusStr(status: int, color: bool, bold: bool): (r: string)
    ensures !color ==> r == StatusStr(status)
    ensures color ==> exists on: string, off: string :: r == on + StatusStr(status) + off && off == [Escape] + "[0m"
    ensures color ==> StartsWith(r, [Escape, '[']) && r[2] == (if bold then '1' else '0')
  {
    var boldStr := if bold then "1" else "0";
    var on := if color then [Escape] + "[" + boldStr + ";" + ColorCode(status) + "m" else "";
    var off := if color then [Escape] + "[0m" else "";
    assert color ==> (on + StatusStr(status) + off)[..2] == [Escape, '['];
    on + StatusStr(status) + off
  }

  // ---------------------------------------------------------------------
  // Options

  const TrueWords: seq<string> := ["true", "t", "1", "y", "yes"]

  /** `str_to_bool(str)`. */
  function StrToBool(s: string): (b: bool)
  {
    Lower(s) in TrueWords
  }

  /** The reading ignores case. */
  lemma StrToBoolIgnoresCase(s: string)
    ensures StrToBool(Lower(s)) == StrToBool(s)
  {
    assert Lower(Lower(s)) == Lower(s);
  }

  /** A few readings: the words of either case are true, anything else
      false. */
  lemma StrToBoolExamples()
    ensures StrToBool("Yes") && StrToBool("TRUE") && StrToBool("1")
    ensures !StrToBool("no") && !StrToBool("") && !StrToBool("0")
  {
    assert Lower("Yes") == "yes";
    assert Lower("TRUE") == "true";
    assert Lower("1") == "1";
    assert Lower("no") == "no";
    assert Lower("0") == "0";
  }
}
