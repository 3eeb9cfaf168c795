/** `change_line` of tools/generate_test_input.py: the namelist file is
    read as a list of lines, every line holding the identifier is
    replaced, and the file is written back only when exactly one line was
    replaced. */
module GenerateTestInput {
  import opened Common

  /** Whether a line is one to replace. */
  predicate Holds(line: string, key: string)
  {
    Contains(line, key)
  }

  /** How many lines hold `key`. */
  function MatchCount(data: seq<string>, key: string): (n: nat)
    ensures n <= |data|
  {
    if |data| == 0 then 0
    else (if Holds(data[0], key) then 1 else 0) + MatchCount(data[1..], key)
  }

  /** No line is counted exactly when no line holds the key. */
  lemma {:induction false} MatchCountZero(data: seq<string>, key: string)
    ensures MatchCount(data, key) == 0 <==> forall i :: 0 <= i < |data| ==> !Holds(data[i], key)
  {
    if |data| > 0 {
      MatchCountZero(data[1..], key);
      assert forall i :: 1 <= i < |data| ==> data[i] == data[1..][i - 1];
    }
  }

  /** The lines with every one that holds `key` replaced by `newline`. */
  function Replaced(data: seq<string>, key: string, newline: string): (r: seq<string>)
    ensures |r| == |data|
  {
    if |data| == 0 then []
    else [if Holds(data[0], key) then newline else data[0]] + Replaced(data[1..], key, newline)
  }

  /** Each line holding the key becomes the new line; every other line is
      kept in its place. */
  lemma {:induction false} ReplacedLines(data: seq<string>, key: string, newline: string)
    ensures forall i :: 0 <= i < |data| && Holds(data[i], key) ==> Replaced(data, key, newline)[i] == newline
    ensures forall i :: 0 <= i < |data| && !Holds(data[i], key) ==> Replaced(data, key, newline)[i] == data[i]
  {
    if |data| > 0 {
      ReplacedLines(data[1..], key, newline);
      assert forall i :: 1 <= i < |data| ==> data[i] == data[1..][i - 1];
    }
  }

  /** A key that strips to nothing is in every line. */
  lemma {:induction false} EmptyKeyMatchesAll(data: seq<string>)
    ensures MatchCount(data, "") == |data|
    ensures forall i :: 0 <= i < |data| ==> Replaced(data, "", "x")[i] == "x"
  {
    if |data| > 0 {
      assert Holds(data[0], "");
      EmptyKeyMatchesAll(data[1..]);
    }
  }

  /** With exactly one line holding the key, the replacement changes that
      line and no other. */
  lemma {:induction false} SingleMatchChangesOneLine(data: seq<string>, key: string, newline: string)
    requires MatchCount(data, key) == 1
    ensures exists i :: 0 <= i < |data| && Holds(data[i], key)
              && Replaced(data, key, newline) == data[i := newline]
  {
    var r := Replaced(data, key, newline);
    if Holds(data[0], key) {
      assert MatchCount(data[1..], key) == 0;
      MatchCountZero(data[1..], key);
      ReplacedLines(data, key, newline);
      forall j | 1 <= j < |data|
        ensures r[j] == data[j]
      {
        assert data[j] == data[1..][j - 1];
      }
      assert r == data[0 := newline];
    } else {
      SingleMatchChangesOneLine(data[1..], key, newline);
      var i :| 0 <= i < |data[1..]| && Holds(data[1..][i], key)
               && Replaced(data[1..], key, newline) == data[1..][i := newline];
      assert r == [data[0]] + Replaced(data[1..], key, newline);
      assert r == data[i + 1 := newline];
    }
  }

  /** Replacing again changes nothing: a replaced line is the new line
      whether or not it holds the key. */
  lemma {:induction false} ReplacedIdempotent(data: seq<string>, key: string, newline: string)
    ensures Replaced(Replaced(data, key, newline), key, newline) == Replaced(data, key, newline)
  {
    if |data| > 0 {
      ReplacedIdempotent(data[1..], key, newline);
      var r := Replaced(data, key, newline);
      assert r[1..] == Replaced(data[1..], key, newline);
    }
  }

  /** A namelist file, as the list of its lines. */
  class InputFile {
    var lines: seq<string>

    constructor(lines: seq<string>)
      ensures this.lines == lines
    {
      this.lines := lines;
    }

    /** `change_line(filename, identifier, newline)`: returns the number of
        lines holding the stripped identifier; the file is rewritten only
        when that number is 1, the script exits otherwise. */
    method ChangeLine(identifier: string, newline: string) returns (counter: nat)
      modifies this
      ensures counter == MatchCount(old(lines), Strip(identifier))
      ensures counter == 1 ==> lines == Replaced(old(lines), Strip(identifier), newline)
      ensures counter != 1 ==> lines == old(lines)
    {
      var newData;
      newData, counter := ReplaceLines(lines, Strip(identifier), newline);
      if counter == 1 {
        lines := newData;
      }
    }
  }

  /** The loop of `change_line`: the new lines and the number replaced. */
  method ReplaceLines(data: seq<string>, key: string, newline: string)
    returns (newData: seq<string>, counter: nat)
    ensures newData == Replaced(data, key, newline)
    ensures counter == MatchCount(data, key)
  {
    newData := [];
    counter := 0;
    var k := 0;
    while k < |data|
      invariant 0 <= k <= |data|
      invariant newData == Replaced(data[..k], key, newline)
      invariant counter == MatchCount(data[..k], key)
    {
      ReplacedStep(data, k, key, newline);
      MatchCountStep(data, k, key);
      var line := data[k];
      if Holds(line, key) {
        line := newline;
        counter := counter + 1;
      }
      newData := newData + [line];
      k := k + 1;
    }
    assert data[..k] == data;
  }

  lemma {:induction false} ReplacedSnoc(data: seq<string>, line: string, key: string, newline: string)
    ensures Replaced(data + [line], key, newline)
            == Replaced(data, key, newline) + [if Holds(line, key) then newline else line]
  {
    if |data| > 0 {
      assert (data + [line])[1..] == data[1..] + [line];
      ReplacedSnoc(data[1..], line, key, newline);
    }
  }

  lemma {:induction false} MatchCountSnoc(data: seq<string>, line: string, key: string)
    ensures MatchCount(data + [line], key) == MatchCount(data, key) + (if Holds(line, key) then 1 else 0)
  {
    if |data| > 0 {
      assert (data + [line])[1..] == data[1..] + [line];
      MatchCountSnoc(data[1..], line, key);
    }
  }

  lemma ReplacedStep(data: seq<string>, k: nat, key: string, newline: string)
    requires k < |data|
    ensures Replaced(data[..k + 1], key, newline)
            == Replaced(data[..k], key, newline) + [if Holds(data[k], key) then newline else data[k]]
  {
    assert data[..k + 1] == data[..k] + [data[k]];
    ReplacedSnoc(data[..k], data[k], key, newline);
  }

  lemma MatchCountStep(data: seq<string>, k: nat, key: string)
    requires k < |data|
    ensures MatchCount(data[..k + 1], key) == MatchCount(data[..k], key) + (if Holds(data[k], key) then 1 else 0)
  {
    assert data[..k + 1] == data[..k] + [data[k]];
    MatchCountSnoc(data[..k], data[k], key);
  }
}
