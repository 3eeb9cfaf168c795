/** Helpers shared by the models of the test-suite tools: optional values,
    the Python exceptions the tools raise, string operations of Python's
    `str` type, and the whitespace-split token lines that the comparators
    read. */
module Common {

  datatype Option<T> = None | Some(value: T)

  /** The exceptions a tool lets escape to its caller (the caller reports
      them as a crash). */
  datatype PyError = ValueError | IOError | IndexError | ZeroDivisionError | NameError | KeyError
                   | StopIteration

  /** How an operation that changes state in place ended: normally, or by
      raising (the changes made before the raise stay). */
  datatype Outcome = Done | Raised(error: PyError)

  /** The value an operation returns, or the exception it raises. */
  datatype Result<T> = Success(value: T) | Failure(error: PyError)

  function Max(a: real, b: real): real { if a >= b then a else b }

  function MaxInt(a: int, b: int): int { if a >= b then a else b }

  function MinInt(a: int, b: int): int { if a <= b then a else b }

  function Abs(x: real): real { if x < 0.0 then -x else x }

  /** `abs(d / q) * abs(q) == abs(d)`: undoing a relative difference. */
  lemma AbsQuotient(d: real, q: real)
    requires q != 0.0
    ensures Abs(d / q) * Abs(q) == Abs(d)
  {
    assert (d / q) * q == d;
  }

  /** Python's `xs.index(x)`, with -1 for the ValueError when `x` is absent:
      the first position holding `x`. */
  function IndexOf<T(==)>(xs: seq<T>, x: T): (r: int)
    ensures -1 <= r < |xs|
    ensures r >= 0 ==> xs[r] == x && forall k :: 0 <= k < r ==> xs[k] != x
    ensures r < 0 <==> x !in xs
  {
    if |xs| == 0 then -1
    else if xs[0] == x then 0
    else
      assert xs == [xs[0]] + xs[1..];
      var k := IndexOf(xs[1..], x);
      if k < 0 then -1 else k + 1
  }

  /** Python's `del xs[i]`. */
  function Delete<T>(xs: seq<T>, i: int): (r: seq<T>)
    requires 0 <= i < |xs|
    ensures |r| == |xs| - 1
  {
    xs[..i] + xs[i + 1..]
  }

  /** Python's `xs.insert(i, x)` for `0 <= i <= len(xs)`. */
  function Insert<T>(xs: seq<T>, i: int, x: T): (r: seq<T>)
    requires 0 <= i <= |xs|
    ensures |r| == |xs| + 1
  {
    xs[..i] + [x] + xs[i..]
  }

  /** A value not yet in `xs` is found where it was inserted. */
  lemma IndexOfInserted<T>(xs: seq<T>, i: int, x: T)
    requires 0 <= i <= |xs| && x !in xs
    ensures IndexOf(Insert(xs, i, x), x) == i
  {
    var ys := Insert(xs, i, x);
    assert ys[i] == x;
    assert forall k :: 0 <= k < i ==> ys[k] == xs[k];
  }

  lemma DeleteInserted<T>(xs: seq<T>, i: int, x: T)
    requires 0 <= i <= |xs|
    ensures Delete(Insert(xs, i, x), i) == xs
  {
    var ys := Insert(xs, i, x);
    assert ys[..i] == xs[..i] && ys[i + 1..] == xs[i..];
    assert xs[..i] + xs[i..] == xs;
  }

  /** `[x] * n` */
  function Repeat<T>(x: T, n: nat): (r: seq<T>)
    ensures |r| == n && forall i :: 0 <= i < n ==> r[i] == x
  {
    seq(n, _ => x)
  }

  lemma IndexOfAppended<T>(xs: seq<T>, x: T)
    requires x !in xs
    ensures IndexOf(xs + [x], x) == |xs|
  {
    assert (xs + [x])[|xs|] == x;
  }

  // ---------------------------------------------------------------------
  // Strings

  /** Python's `s.startswith(prefix)`. */
  predicate StartsWith(s: string, prefix: string)
  {
    |prefix| <= |s| && s[..|prefix|] == prefix
  }

  /** Python's `sub in s`. */
  predicate Contains(s: string, sub: string)
    decreases |s|
  {
    StartsWith(s, sub) || (|s| > 0 && Contains(s[1..], sub))
  }

  lemma {:induction false} ContainsAt(s: string, sub: string, i: nat)
    requires i + |sub| <= |s| && s[i..i + |sub|] == sub
    ensures Contains(s, sub)
    decreases i
  {
    if i > 0 {
      assert s[1..][i - 1..i - 1 + |sub|] == s[i..i + |sub|];
      ContainsAt(s[1..], sub, i - 1);
    } else {
      assert s[..|sub|] == s[0..|sub|];
    }
  }

  /** A string holds no substring longer than itself. */
  lemma {:induction false} ContainsShorter(s: string, sub: string)
    requires Contains(s, sub)
    ensures |sub| <= |s|
    decreases |s|
  {
    if !StartsWith(s, sub) {
      ContainsShorter(s[1..], sub);
    }
  }

  /** Python's `s.split(sep)` with an explicit one-character separator:
      `"a,,b"` gives `["a", "", "b"]` and `""` gives `[""]`. */
  function Split(s: string, sep: char): (parts: seq<string>)
    ensures |parts| >= 1
  {
    if |s| == 0 then [""]
    else
      var rest := Split(s[1..], sep);
      if s[0] == sep then [""] + rest else [[s[0]] + rest[0]] + rest[1..]
  }

  /** Python's `sep.join(parts)`. */
  function Join(parts: seq<string>, sep: char): string
  {
    if |parts| == 0 then ""
    else if |parts| == 1 then parts[0]
    else parts[0] + [sep] + Join(parts[1..], sep)
  }

  /** A string without the separator splits into itself. */
  lemma {:induction false} SplitWithoutSeparator(s: string, sep: char)
    requires sep !in s
    ensures Split(s, sep) == [s]
  {
    if |s| > 0 {
      assert sep !in s[1..];
      SplitWithoutSeparator(s[1..], sep);
      assert [s[0]] + s[1..] == s;
    }
  }

  /** Splitting and joining on the same separator gives the string back. */
  lemma {:induction false} JoinSplit(s: string, sep: char)
    ensures Join(Split(s, sep), sep) == s
  {
    if |s| > 0 {
      var rest := Split(s[1..], sep);
      JoinSplit(s[1..], sep);
      if s[0] == sep {
        assert Join([""] + rest, sep) == "" + [sep] + Join(rest, sep);
        assert [s[0]] + s[1..] == s;
      } else {
        var parts := [[s[0]] + rest[0]] + rest[1..];
        if |rest| == 1 {
          assert Join(parts, sep) == [s[0]] + rest[0];
        } else {
          assert parts[1..] == rest[1..];
          assert Join(rest, sep) == rest[0] + [sep] + Join(rest[1..], sep);
        }
        assert [s[0]] + s[1..] == s;
      }
    }
  }

  /** Python's ordering of strings: lexicographic on code points. */
  predicate StrLess(a: string, b: string)
    decreases |a|
  {
    if |a| == 0 then |b| > 0
    else if |b| == 0 then false
    else a[0] < b[0] || (a[0] == b[0] && StrLess(a[1..], b[1..]))
  }

  lemma {:induction false} StrLessIrreflexive(a: string)
    ensures !StrLess(a, a)
  {
    if |a| > 0 { StrLessIrreflexive(a[1..]); }
  }

  lemma {:induction false} StrLessTransitive(a: string, b: string, c: string)
    requires StrLess(a, b) && StrLess(b, c)
    ensures StrLess(a, c)
    decreases |a|
  {
    if |a| > 0 && |b| > 0 && |c| > 0 && a[0] == b[0] && b[0] == c[0] {
      StrLessTransitive(a[1..], b[1..], c[1..]);
    }
  }

  lemma {:induction false} StrLessTotal(a: string, b: string)
    requires a != b
    ensures StrLess(a, b) || StrLess(b, a)
    decreases |a|
  {
    if |a| > 0 && |b| > 0 && a[0] == b[0] {
      assert a == [a[0]] + a[1..] && b == [b[0]] + b[1..];
      StrLessTotal(a[1..], b[1..]);
    }
  }

  /** A strict total order, the kind of order Python's `sorted` relies on. */
  ghost predicate StrictTotalOrder<T(!new)>(lt: (T, T) -> bool)
  {
    && (forall a :: !lt(a, a))
    && (forall a, b, c :: lt(a, b) && lt(b, c) ==> lt(a, c))
    && (forall a, b :: a != b ==> lt(a, b) || lt(b, a))
  }

  lemma StringOrderIsStrictTotal()
    ensures StrictTotalOrder(StrLess)
  {
    forall a: string ensures !StrLess(a, a) { StrLessIrreflexive(a); }
    forall a: string, b: string, c: string | StrLess(a, b) && StrLess(b, c)
      ensures StrLess(a, c)
    {
      StrLessTransitive(a, b, c);
    }
    forall a: string, b: string | a != b ensures StrLess(a, b) || StrLess(b, a) {
      StrLessTotal(a, b);
    }
  }

  predicate IntLess(a: int, b: int) { a < b }

  lemma IntOrderIsStrictTotal()
    ensures StrictTotalOrder(IntLess)
  {
  }

  predicate StrictlySorted<T>(xs: seq<T>, lt: (T, T) -> bool)
  {
    forall i, j :: 0 <= i < j < |xs| ==> lt(xs[i], xs[j])
  }

  /** Insert `x` into a strictly sorted sequence unless it is already there. */
  function InsertUnique<T(==,!new)>(x: T, ys: seq<T>, lt: (T, T) -> bool): (r: seq<T>)
    requires StrictTotalOrder(lt) && StrictlySorted(ys, lt)
    ensures StrictlySorted(r, lt)
    ensures forall z :: z in r <==> z in ys || z == x
  {
    if |ys| == 0 then [x]
    else if x == ys[0] then ys
    else if lt(x, ys[0]) then [x] + ys
    else
      var rest := InsertUnique(x, ys[1..], lt);
      assert forall z :: z in ys <==> z == ys[0] || z in ys[1..];
      assert forall z :: z in rest ==> lt(ys[0], z);
      [ys[0]] + rest
  }

  /** Python's `sorted(list(set(xs)))`: the distinct elements of `xs`,
      in increasing order. */
  function SortedSet<T(==,!new)>(xs: seq<T>, lt: (T, T) -> bool): (r: seq<T>)
    requires StrictTotalOrder(lt)
    ensures StrictlySorted(r, lt)
    ensures forall z :: z in r <==> z in xs
  {
    if |xs| == 0 then []
    else
      assert forall z :: z in xs <==> z == xs[0] || z in xs[1..];
      InsertUnique(xs[0], SortedSet(xs[1..], lt), lt)
  }

  /** `a` sorts no later than `b`. */
  predicate StrAtMost(a: string, b: string)
  {
    !StrLess(b, a)
  }

  lemma StrAtMostTransitive(a: string, b: string, c: string)
    requires StrAtMost(a, b) && StrAtMost(b, c)
    ensures StrAtMost(a, c)
  {
    if StrLess(c, a) {
      if a != b { StrLessTotal(a, b); StrLessTransitive(c, a, b); }
      if b != c { StrLessTotal(b, c); }
      if a != b && b != c { StrLessTransitive(a, b, c); StrLessTransitive(c, a, c); }
      StrLessIrreflexive(c);
    }
  }

  predicate SortedStrings(xs: seq<string>)
  {
    forall i, j :: 0 <= i < j < |xs| ==> StrAtMost(xs[i], xs[j])
  }

  /** Python's `sorted(names)` for strings (a stable insertion sort): a
      sorted permutation of `xs`. */
  function SortStrings(xs: seq<string>): (r: seq<string>)
    ensures multiset(r) == multiset(xs)
    ensures SortedStrings(r)
  {
    if |xs| == 0 then []
    else
      assert xs == [xs[0]] + xs[1..];
      InsertString(xs[0], SortStrings(xs[1..]))
  }

  /** Insert `x` after every element that sorts before it. */
  function InsertString(x: string, sorted: seq<string>): (r: seq<string>)
    requires SortedStrings(sorted)
    ensures multiset(r) == multiset(sorted) + multiset{x}
    ensures SortedStrings(r)
  {
    if |sorted| == 0 || !StrLess(sorted[0], x) then
      InsertedFirst(x, sorted);
      [x] + sorted
    else
      assert sorted == [sorted[0]] + sorted[1..];
      var rest := InsertString(x, sorted[1..]);
      forall z | z in rest ensures StrAtMost(sorted[0], z) {
        assert z in multiset(rest);
        if z != x {
          assert z in multiset(sorted[1..]);
          var k :| 0 <= k < |sorted[1..]| && sorted[1..][k] == z;
          assert sorted[k + 1] == z;
        } else {
          StrLessIrreflexive(x);
          if StrLess(x, sorted[0]) { StrLessTransitive(x, sorted[0], x); }
        }
      }
      ConsSorted(sorted[0], rest);
      [sorted[0]] + rest
  }

  lemma InsertedFirst(x: string, sorted: seq<string>)
    requires SortedStrings(sorted)
    requires |sorted| == 0 || !StrLess(sorted[0], x)
    ensures SortedStrings([x] + sorted)
  {
    if |sorted| > 0 {
      forall z | z in sorted ensures StrAtMost(x, z) {
        var k :| 0 <= k < |sorted| && sorted[k] == z;
        if k == 0 { StrLessIrreflexive(z); } else { assert StrAtMost(sorted[0], sorted[k]); }
        StrAtMostTransitive(x, sorted[0], z);
      }
      ConsSorted(x, sorted);
    }
  }

  lemma ConsSorted(x: string, xs: seq<string>)
    requires SortedStrings(xs) && forall z :: z in xs ==> StrAtMost(x, z)
    ensures SortedStrings([x] + xs)
  {
    var r := [x] + xs;
    forall i, j | 0 <= i < j < |r| ensures StrAtMost(r[i], r[j]) {
      if i == 0 { assert r[j] == xs[j - 1] && r[j] in xs; }
      else { assert r[i] == xs[i - 1] && r[j] == xs[j - 1]; }
    }
  }

  predicate IsAsciiSpace(c: char)
  {
    c == ' ' || c == '\t' || c == '\n' || c == '\r' || c == '\U{0B}' || c == '\U{0C}'
  }

  /** Python's `s.strip()` (no argument): drop leading and trailing
      whitespace. */
  function Strip(s: string): (r: string)
    ensures |r| <= |s|
    decreases |s|
  {
    if |s| > 0 && IsAsciiSpace(s[0]) then Strip(s[1..])
    else if |s| > 0 && IsAsciiSpace(s[|s| - 1]) then Strip(s[..|s| - 1])
    else s
  }

  /** Python's `s.split()` (no argument): the maximal runs of
      non-whitespace characters. */
  function Words(s: string): (r: seq<string>)
    ensures forall w :: w in r ==> |w| > 0
  {
    WordsFrom(s, "")
  }

  function WordsFrom(s: string, current: string): (r: seq<string>)
    ensures forall w :: w in r ==> |w| > 0
    decreases |s|
  {
    if |s| == 0 then (if |current| > 0 then [current] else [])
    else if IsAsciiSpace(s[0]) then
      (if |current| > 0 then [current] else []) + WordsFrom(s[1..], "")
    else WordsFrom(s[1..], current + [s[0]])
  }

  /** Python's `s.strip(c)` for one character. */
  function StripChar(s: string, c: char): (r: string)
    decreases |s|
  {
    if |s| > 0 && s[0] == c then StripChar(s[1..], c)
    else if |s| > 0 && s[|s| - 1] == c then StripChar(s[..|s| - 1], c)
    else s
  }

  function LowerChar(c: char): char
  {
    if 'A' <= c <= 'Z' then (c as int + 32) as char else c
  }

  /** Python's `s.lower()` on ASCII letters. */
  function Lower(s: string): (r: string)
    ensures |r| == |s|
    ensures forall i :: 0 <= i < |s| ==> r[i] == LowerChar(s[i])
  {
    seq(|s|, i requires 0 <= i < |s| => LowerChar(s[i]))
  }

  // ---------------------------------------------------------------------
  // Token lines

  /** One whitespace-separated field of a text line, with the results of
      Python's `float(text)` and `int(text)` (None when they raise
      ValueError). */
  datatype Token = Token(text: string, asFloat: Option<real>, asInt: Option<int>)

  /** The result of `line.split()`. */
  type Line = seq<Token>
}
