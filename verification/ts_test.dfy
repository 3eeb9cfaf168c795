/** The pure parts of tools/ts_test.py: whether a test is selected, the
    directories a test works in, and the domain decompositions offered to
    the model for a number of processors. */
module TsTest {
  import opened Common
  import opened TsUtilities

  // ---------------------------------------------------------------------
  // Selecting a test

  /** `run_test()`: every test runs unless `--only=type,name` names
      another one. */
  function RunTest(only: Option<string>, testType: string, name: string): (run: bool)
    ensures only.None? ==> run
    ensures only.Some? && run ==> StartsWith(only.value, testType + ",")
    ensures only.Some? && run ==> |only.value| == |testType| + 1 + |name|
  {
    only.None? || only.value == testType + "," + name
  }

  /** Splitting at the first comma: a key `a,b` whose type part has no
      comma determines both parts. */
  lemma CommaKeyInjective(a: string, b: string, c: string, d: string)
    requires ',' !in a && ',' !in c
    requires a + "," + b == c + "," + d
    ensures a == c && b == d
  {
    var s := a + "," + b;
    assert s == c + "," + d;
    assert forall i :: 0 <= i < |a| ==> s[i] == a[i] && s[i] != ',';
    assert forall i :: 0 <= i < |c| ==> s[i] == c[i] && s[i] != ',';
    assert s[|a|] == ',' && s[|c|] == ',';
    assert a == s[..|a|] && c == (c + "," + d)[..|c|];
    assert b == s[|a| + 1..] && d == (c + "," + d)[|c| + 1..];
  }

  /** With `--only`, at most one test (type, name) runs, as long as test
      types have no comma. */
  lemma OnlySelectsOneTest(only: string, type1: string, name1: string, type2: string, name2: string)
    requires ',' !in type1 && ',' !in type2
    requires RunTest(Some(only), type1, name1) && RunTest(Some(only), type2, name2)
    ensures type1 == type2 && name1 == name2
  {
    CommaKeyInjective(type1, name1, type2, name2);
  }

  // ---------------------------------------------------------------------
  // Directories

  /** The directories of a test, all but the dependency ending with `/`. */
  datatype Dirs = Dirs(basedir: string, inputdir: string, rundir: string,
                       namelistdir: string, refoutdir: string, dependdir: Option<string>)

  /** Whether `re.match('[.][.][/].*', s)` succeeds. */
  predicate Relative(s: string)
  {
    StartsWith(s, "../")
  }

  /** The reference output directory: a given value starting with `../`
      is taken relative to the run directory, any other value relative to
      the data directory; without a value (or an empty one) it is the
      namelist directory. */
  function RefOutDir(refoutNode: Option<string>, basedir: string, rundir: string, namelistdir: string): (r: string)
    requires EndsWith(namelistdir, '/')
    ensures EndsWith(r, '/')
    ensures (refoutNode.None? || refoutNode.value == "") ==> r == namelistdir
    ensures refoutNode.Some? && refoutNode.value != "" && Relative(refoutNode.value)
            ==> StartsWith(r, rundir + "../")
    ensures refoutNode.Some? && refoutNode.value != "" && !Relative(DirPath(refoutNode.value))
            ==> StartsWith(r, basedir + "data/")
  {
    if refoutNode.Some? && refoutNode.value != "" then
      var refoutdir := DirPath(refoutNode.value);
      assert Relative(refoutNode.value) ==> refoutdir[..3] == refoutNode.value[..3];
      if Relative(refoutdir) then
        assert (rundir + refoutdir)[..|rundir| + 3] == rundir + "../";
        rundir + refoutdir
      else
        assert (basedir + "data/" + refoutdir)[..|basedir| + 5] == basedir + "data/";
        basedir + "data/" + refoutdir
    else
      namelistdir
  }

  /** The dependency directory: the value stripped of spaces, kept when it
      starts with `../`, placed under the base directory otherwise. */
  function DependDir(dependNode: Option<string>, basedir: string): (r: Option<string>)
    ensures r.Some? <==> dependNode.Some?
    ensures r.Some? ==> Relative(r.value) || StartsWith(r.value, basedir + "/")
  {
    match dependNode
    case None => None
    case Some(depend) =>
      var stripped := StripChar(depend, ' ');
      if Relative(stripped) then Some(stripped)
      else
        assert (basedir + "/" + stripped)[..|basedir| + 1] == basedir + "/";
        Some(basedir + "/" + stripped)
  }

  /** `dir_path(basedir + 'data/' + sub)`: a directory under the data
      directory. */
  function DataDir(basedir: string, sub: string): (r: string)
    ensures EndsWith(r, '/') && StartsWith(r, basedir + "data/")
  {
    var path := basedir + "data/" + sub;
    assert path[..|basedir| + 5] == basedir + "data/";
    DirPath(path)
  }

  /** The run directory: the base directory, the working directory, the
      test's type and name, each with its trailing slash. */
  function RunDir(basedir: string, workdir: string, testType: string, name: string): (r: string)
    requires EndsWith(basedir, '/')
    ensures EndsWith(r, '/') && StartsWith(r, basedir)
  {
    var tail := DirPath(workdir) + DirPath(testType) + DirPath(name);
    assert (basedir + tail)[..|basedir|] == basedir;
    DirPath(basedir) + tail
  }

  /** The directory paths the test's constructor sets up from the
      configured base directory, the working directory, the test's type
      and name and the optional `namelistdir`, `refoutdir` and `depend`
      entries of the test list. */
  function Directories(confBasedir: string, workdir: string, testType: string, name: string,
                       namelistNode: Option<string>, refoutNode: Option<string>,
                       dependNode: Option<string>): (d: Dirs)
    ensures EndsWith(d.basedir, '/') && EndsWith(d.inputdir, '/') && EndsWith(d.rundir, '/')
    ensures EndsWith(d.namelistdir, '/') && EndsWith(d.refoutdir, '/')
    ensures StartsWith(d.inputdir, d.basedir + "data/")
    ensures StartsWith(d.rundir, d.basedir)
    ensures StartsWith(d.namelistdir, d.basedir + "data/")
    ensures (refoutNode.None? || refoutNode.value == "") ==> d.refoutdir == d.namelistdir
    ensures d.dependdir.Some? <==> dependNode.Some?
  {
    var basedir := DirPath(confBasedir);
    var rundir := RunDir(basedir, workdir, testType, name);
    var namelistdir :=
      if namelistNode.Some? && namelistNode.value != "" then DataDir(basedir, namelistNode.value)
      else DataDir(basedir, testType + "/" + name);
    Dirs(basedir, DataDir(basedir, testType), rundir, namelistdir,
         RefOutDir(refoutNode, basedir, rundir, namelistdir),
         DependDir(dependNode, basedir))
  }

  /** `dir_path(basedir + 'data/' + sub)` with `dir_path` as written. */
  function DataDirAsWritten(basedir: string, sub: string): string
  {
    DirPathAsWritten(basedir + "data/" + sub)
  }

  /** The run directory with `dir_path` as written. */
  function RunDirAsWritten(basedir: string, workdir: string, testType: string, name: string): string
  {
    DirPathAsWritten(basedir)
    + (DirPathAsWritten(workdir) + DirPathAsWritten(testType) + DirPathAsWritten(name))
  }

  /** The reference output directory with `dir_path` as written. */
  function RefOutDirAsWritten(refoutNode: Option<string>, basedir: string, rundir: string, namelistdir: string): string
  {
    if refoutNode.Some? && refoutNode.value != "" then
      var refoutdir := DirPathAsWritten(refoutNode.value);
      if Relative(refoutdir) then rundir + refoutdir else basedir + "data/" + refoutdir
    else
      namelistdir
  }

  /** The directories the test's constructor sets up, with `dir_path` as
      written, whose pattern treats a newline specially. */
  function DirectoriesAsWritten(confBasedir: string, workdir: string, testType: string, name: string,
                                namelistNode: Option<string>, refoutNode: Option<string>,
                                dependNode: Option<string>): Dirs
  {
    var basedir := DirPathAsWritten(confBasedir);
    var rundir := RunDirAsWritten(basedir, workdir, testType, name);
    var namelistdir :=
      if namelistNode.Some? && namelistNode.value != "" then DataDirAsWritten(basedir, namelistNode.value)
      else DataDirAsWritten(basedir, testType + "/" + name);
    Dirs(basedir, DataDirAsWritten(basedir, testType), rundir, namelistdir,
         RefOutDirAsWritten(refoutNode, basedir, rundir, namelistdir),
         DependDir(dependNode, basedir))
  }

  /** When no configured value holds a newline, the constructor as written
      sets up exactly the directories of `Directories`, so each of them
      ends with a slash and lies where `Directories` promises. */
  lemma DirectoriesAgree(confBasedir: string, workdir: string, testType: string, name: string,
                         namelistNode: Option<string>, refoutNode: Option<string>,
                         dependNode: Option<string>)
    requires '\n' !in confBasedir && '\n' !in workdir && '\n' !in testType && '\n' !in name
    requires namelistNode.Some? ==> '\n' !in namelistNode.value
    requires refoutNode.Some? ==> '\n' !in refoutNode.value
    ensures DirectoriesAsWritten(confBasedir, workdir, testType, name, namelistNode, refoutNode, dependNode)
            == Directories(confBasedir, workdir, testType, name, namelistNode, refoutNode, dependNode)
  {
    DirPathAgrees(confBasedir);
    var basedir := DirPath(confBasedir);
    RunDirAgrees(basedir, workdir, testType, name);
    DataDirAgrees(basedir, testType);
    DataDirAgrees(basedir, testType + "/" + name);
    if namelistNode.Some? {
      DataDirAgrees(basedir, namelistNode.value);
    }
    var rundir := RunDir(basedir, workdir, testType, name);
    var namelistdir :=
      if namelistNode.Some? && namelistNode.value != "" then DataDir(basedir, namelistNode.value)
      else DataDir(basedir, testType + "/" + name);
    RefOutDirAgrees(refoutNode, basedir, rundir, namelistdir);
  }

  lemma RunDirAgrees(basedir: string, workdir: string, testType: string, name: string)
    requires '\n' !in basedir && '\n' !in workdir && '\n' !in testType && '\n' !in name
    requires EndsWith(basedir, '/')
    ensures RunDirAsWritten(basedir, workdir, testType, name) == RunDir(basedir, workdir, testType, name)
  {
    DirPathAgrees(basedir);
    DirPathAgrees(workdir);
    DirPathAgrees(testType);
    DirPathAgrees(name);
  }

  lemma DataDirAgrees(basedir: string, sub: string)
    requires '\n' !in basedir && '\n' !in sub
    ensures DataDirAsWritten(basedir, sub) == DataDir(basedir, sub)
  {
    assert forall c :: c in basedir + "data/" + sub ==> c in basedir || c in "data/" || c in sub;
    DirPathAgrees(basedir + "data/" + sub);
  }

  lemma RefOutDirAgrees(refoutNode: Option<string>, basedir: string, rundir: string, namelistdir: string)
    requires refoutNode.Some? ==> '\n' !in refoutNode.value
    requires EndsWith(namelistdir, '/')
    ensures RefOutDirAsWritten(refoutNode, basedir, rundir, namelistdir)
            == RefOutDir(refoutNode, basedir, rundir, namelistdir)
  {
    if refoutNode.Some? {
      DirPathAgrees(refoutNode.value);
    }
  }

  // ---------------------------------------------------------------------
  // Domain decompositions

  /** A decomposition of the processors into `nprocx` times `nprocy`. */
  type Decomposition = (int, int)

  /** `p` divides `n` processors into `p.0` columns of `p.1`. */
  predicate Splits(n: int, p: Decomposition)
  {
    p.0 >= 1 && n % p.0 == 0 && p.1 == n / p.0
  }

  lemma PositiveCofactor(n: int, d: int)
    requires n >= 1 && d >= 1 && n % d == 0
    ensures n / d >= 1 && d * (n / d) == n
  {
    assert d * (n / d) + n % d == n;
  }

  /** A split of a positive number of processors is a rectangle of them. */
  lemma SplitsIsRectangle(n: int, p: Decomposition)
    requires n >= 1 && Splits(n, p)
    ensures p.1 >= 1 && p.0 * p.1 == n
  {
    PositiveCofactor(n, p.0);
  }

  /** The first side of a split is at most the number split. */
  lemma SplitsBounded(n: int, p: Decomposition)
    requires n >= 1 && Splits(n, p)
    ensures p.0 <= n
  {
    SplitsIsRectangle(n, p);
  }

  /** The divisor pairs `(i, n / i)` for `i` from `top` down to 1, in that
      order. */
  function DivisorPairs(n: int, top: int): (ps: seq<Decomposition>)
    ensures forall k :: 0 <= k < |ps| ==> Splits(n, ps[k]) && ps[k].0 <= top
    decreases top
  {
    if top <= 0 then []
    else
      var rest := DivisorPairs(n, top - 1);
      if n % top == 0 then [(top, n / top)] + rest else rest
  }

  /** Each divisor of `n` up to `top` appears, and nothing else does. */
  lemma {:induction false} DivisorPairsMembers(n: int, top: int, d: int)
    requires d >= 1
    ensures (d, n / d) in DivisorPairs(n, top) <==> d <= top && n % d == 0
    decreases top
  {
    if top > 0 {
      DivisorPairsMembers(n, top - 1, d);
      if d == top && n % d == 0 {
        assert DivisorPairs(n, top)[0] == (d, n / d);
      }
    }
  }

  /** Each split of `n` whose first side is at most `top` appears exactly
      once, and no other pair appears. */
  lemma {:induction false} DivisorPairsCount(n: int, top: int, p: Decomposition)
    ensures multiset(DivisorPairs(n, top))[p] == if Splits(n, p) && p.0 <= top then 1 else 0
    decreases top
  {
    if top > 0 {
      DivisorPairsCount(n, top - 1, p);
      var rest := DivisorPairs(n, top - 1);
      if n % top == 0 {
        assert DivisorPairs(n, top) == [(top, n / top)] + rest;
        assert multiset([(top, n / top)] + rest) == multiset([(top, n / top)]) + multiset(rest);
      }
    }
  }

  /** One step of the loop of `set_parallelization`: divisor `i` is
      collected ahead of the smaller ones. */
  lemma DivisorPairsStep(n: int, i: int)
    requires i >= 1
    ensures DivisorPairs(n, i) == (if n % i == 0 then [(i, n / i)] else []) + DivisorPairs(n, i - 1)
  {
  }

  /** `aspect_ratio(nprocx, nprocy)`: the longer side over the shorter. */
  function AspectRatio(nprocx: int, nprocy: int): (r: Result<real>)
    ensures r.Failure? <==> nprocx == 0 || nprocy == 0
    ensures r.Failure? ==> r.error == ZeroDivisionError
    ensures r.Success? ==> r.value >= 1.0
    ensures r.Success? ==> (r.value == 1.0 <==> nprocx == nprocy || nprocx == -nprocy)
  {
    var x := if nprocx < 0 then -nprocx as real else nprocx as real;
    var y := if nprocy < 0 then -nprocy as real else nprocy as real;
    if x > y then
      if y == 0.0 then Failure(ZeroDivisionError)
      else
        RatioAboveOne(x, y);
        Success(x / y)
    else
      if x == 0.0 then Failure(ZeroDivisionError)
      else
        if y > x then RatioAboveOne(y, x); Success(y / x)
        else Success(y / x)
  }

  lemma PositiveFactor(x: real, y: real)
    requires y > 0.0 && x * y > 0.0
    ensures x > 0.0
  {
  }

  lemma RatioAboveOne(a: real, b: real)
    requires a > b > 0.0
    ensures a / b > 1.0
  {
    var q := a / b;
    assert q * b == a;
    assert (q - 1.0) * b == a - b;
    PositiveFactor(q - 1.0, b);
  }

  /** The ratio does not depend on which side is which. */
  lemma AspectRatioSymmetric(nprocx: int, nprocy: int)
    ensures AspectRatio(nprocx, nprocy) == AspectRatio(nprocy, nprocx)
  {
  }

  /** The sort key of a decomposition; only ever taken of decompositions
      without an empty side, where it is the aspect ratio. */
  function Ratio(p: Decomposition): (r: real)
    ensures p.0 != 0 && p.1 != 0 ==> Success(r) == AspectRatio(p.0, p.1)
  {
    if p.0 != 0 && p.1 != 0 then AspectRatio(p.0, p.1).value else 0.0
  }

  predicate SortedByRatio(ps: seq<Decomposition>)
  {
    forall k, l :: 0 <= k < l < |ps| ==> Ratio(ps[k]) <= Ratio(ps[l])
  }

  predicate AtLeast(v: real, ps: seq<Decomposition>)
  {
    forall k :: 0 <= k < |ps| ==> v <= Ratio(ps[k])
  }

  /** Places `p` before the first element whose ratio is not smaller. */
  function Insert(p: Decomposition, ps: seq<Decomposition>): (r: seq<Decomposition>)
    ensures multiset(r) == multiset(ps) + multiset{p}
  {
    if |ps| == 0 then [p]
    else if Ratio(p) <= Ratio(ps[0]) then [p] + ps
    else
      assert ps == [ps[0]] + ps[1..];
      [ps[0]] + Insert(p, ps[1..])
  }

  lemma {:induction false} InsertAtLeast(v: real, p: Decomposition, ps: seq<Decomposition>)
    requires v <= Ratio(p) && AtLeast(v, ps)
    ensures AtLeast(v, Insert(p, ps))
    decreases |ps|
  {
    if |ps| > 0 && Ratio(p) > Ratio(ps[0]) {
      InsertAtLeast(v, p, ps[1..]);
    }
  }

  /** Inserting into a sorted list keeps it sorted. */
  lemma {:induction false} InsertSorted(p: Decomposition, ps: seq<Decomposition>)
    requires SortedByRatio(ps)
    ensures SortedByRatio(Insert(p, ps))
    decreases |ps|
  {
    if |ps| > 0 {
      if Ratio(p) > Ratio(ps[0]) {
        var tail := ps[1..];
        InsertSorted(p, tail);
        InsertAtLeast(Ratio(ps[0]), p, tail);
        var r := Insert(p, tail);
        assert Insert(p, ps) == [ps[0]] + r;
        forall k, l | 0 <= k < l < |r| + 1
          ensures Ratio(([ps[0]] + r)[k]) <= Ratio(([ps[0]] + r)[l])
        {
          if k > 0 {
            assert ([ps[0]] + r)[k] == r[k - 1] && ([ps[0]] + r)[l] == r[l - 1];
          }
        }
      } else {
        assert AtLeast(Ratio(p), ps);
      }
    }
  }

  /** `sorted(parlist, key=aspect_ratio)`: a stable sort by ratio. */
  function SortByRatio(ps: seq<Decomposition>): (r: seq<Decomposition>)
    ensures SortedByRatio(r)
    ensures multiset(r) == multiset(ps)
  {
    if |ps| == 0 then []
    else
      assert ps == [ps[0]] + ps[1..];
      var rest := SortByRatio(ps[1..]);
      InsertSorted(ps[0], rest);
      Insert(ps[0], rest)
  }

  /** Position `k` holds the earliest of the smallest ratios of `ps`. */
  predicate EarliestMinimum(ps: seq<Decomposition>, k: int)
  {
    && 0 <= k < |ps|
    && (forall j :: 0 <= j < |ps| ==> Ratio(ps[k]) <= Ratio(ps[j]))
    && (forall j :: 0 <= j < k ==> Ratio(ps[j]) > Ratio(ps[k]))
  }

  /** Stability at the head: the first decomposition of the sorted list is
      the earliest one of the input with the smallest ratio. */
  lemma {:induction false} SortHead(ps: seq<Decomposition>)
    requires |ps| > 0
    ensures exists k :: EarliestMinimum(ps, k) && SortByRatio(ps)[0] == ps[k]
  {
    var tail := ps[1..];
    if |tail| == 0 {
      assert SortByRatio(ps) == Insert(ps[0], []);
      assert EarliestMinimum(ps, 0);
    } else {
      SortHead(tail);
      var k' :| EarliestMinimum(tail, k') && SortByRatio(tail)[0] == tail[k'];
      var rest := SortByRatio(tail);
      assert |multiset(rest)| == |rest|;
      assert SortByRatio(ps) == Insert(ps[0], rest);
      if Ratio(ps[0]) <= Ratio(rest[0]) {
        assert SortByRatio(ps)[0] == ps[0];
        forall j | 0 <= j < |ps|
          ensures Ratio(ps[0]) <= Ratio(ps[j])
        {
          if j > 0 {
            assert ps[j] == tail[j - 1];
          }
        }
        assert EarliestMinimum(ps, 0);
      } else {
        assert SortByRatio(ps)[0] == rest[0] == ps[k' + 1];
        forall j | 0 <= j < |ps|
          ensures Ratio(ps[k' + 1]) <= Ratio(ps[j])
          ensures j < k' + 1 ==> Ratio(ps[j]) > Ratio(ps[k' + 1])
        {
          if j > 0 {
            assert ps[j] == tail[j - 1];
          }
        }
        assert EarliestMinimum(ps, k' + 1);
      }
    }
  }

  /** The decompositions of `ps` whose ratio is `v`, in their order. */
  function WithRatio(ps: seq<Decomposition>, v: real): seq<Decomposition>
  {
    if |ps| == 0 then []
    else (if Ratio(ps[0]) == v then [ps[0]] else []) + WithRatio(ps[1..], v)
  }

  /** Insertion passes over smaller ratios only, so `p` lands ahead of
      every decomposition of its own ratio. */
  lemma {:induction false} InsertWithRatio(p: Decomposition, ps: seq<Decomposition>, v: real)
    ensures WithRatio(Insert(p, ps), v) == (if Ratio(p) == v then [p] else []) + WithRatio(ps, v)
    decreases |ps|
  {
    var r := Insert(p, ps);
    assert r[1..] == (if |ps| == 0 || Ratio(p) <= Ratio(ps[0]) then ps else Insert(p, ps[1..]));
    if |ps| > 0 && Ratio(p) > Ratio(ps[0]) {
      InsertWithRatio(p, ps[1..], v);
    }
  }

  /** Full stability: decompositions of equal ratio keep their relative
      order in the sorted list. */
  lemma {:induction false} SortStable(ps: seq<Decomposition>, v: real)
    ensures WithRatio(SortByRatio(ps), v) == WithRatio(ps, v)
    decreases |ps|
  {
    if |ps| > 0 {
      SortStable(ps[1..], v);
      InsertWithRatio(ps[0], SortByRatio(ps[1..]), v);
    }
  }

  /** `set_parallelization(nprocs, nprocio)`: all decompositions of the
      processors left after the I/O processors, by increasing aspect
      ratio; fewer than one such processor is an error. */
  function Parallelizations(nprocs: int, nprocio: int): (r: Result<seq<Decomposition>>)
    ensures r.Failure? <==> nprocs - nprocio < 1
    ensures r.Failure? ==> r.error == ValueError
    ensures r.Success? ==> SortedByRatio(r.value)
    ensures r.Success? ==> forall k :: 0 <= k < |r.value| ==> Splits(nprocs - nprocio, r.value[k])
  {
    var nxy := nprocs - nprocio;
    if nxy < 1 then Failure(ValueError)
    else
      var ps := DivisorPairs(nxy, nxy);
      var r := SortByRatio(ps);
      forall k | 0 <= k < |r|
        ensures Splits(nxy, r[k])
      {
        assert r[k] in multiset(r);
      }
      Success(r)
  }

  /** Every way of dividing the processors into columns is offered. */
  lemma ParallelizationsComplete(nprocs: int, nprocio: int, p: Decomposition)
    requires nprocs - nprocio >= 1 && Splits(nprocs - nprocio, p)
    ensures p in Parallelizations(nprocs, nprocio).value
  {
    var nxy := nprocs - nprocio;
    DivisorPairsMembers(nxy, nxy, p.0);
    SplitsIsRectangle(nxy, p);
    assert p.0 <= nxy;
    assert p in multiset(DivisorPairs(nxy, nxy));
  }

  /** With at least one processor left, the decompositions are the divisor
      pairs sorted by aspect ratio. */
  lemma ParallelizationsSorted(nprocs: int, nprocio: int)
    requires nprocs - nprocio >= 1
    ensures Parallelizations(nprocs, nprocio).Success?
    ensures Parallelizations(nprocs, nprocio).value == SortByRatio(DivisorPairs(nprocs - nprocio, nprocs - nprocio))
  {
  }

  /** No decomposition is offered twice: with `nxy` processors left after
      the `nprocio` I/O processors, each split of `nxy` appears exactly once
      and nothing else appears. */
  lemma ParallelizationsOnce(nxy: int, nprocio: int, p: Decomposition)
    requires nxy >= 1
    ensures multiset(Parallelizations(nxy + nprocio, nprocio).value)[p] == if Splits(nxy, p) then 1 else 0
  {
    ParallelizationsSorted(nxy + nprocio, nprocio);
    SortedPairsOnce(nxy, Parallelizations(nxy + nprocio, nprocio).value, p);
  }

  /** The divisor pairs of `n`, sorted, hold each split of `n` once. */
  lemma SortedPairsOnce(n: int, r: seq<Decomposition>, p: Decomposition)
    requires n >= 1 && r == SortByRatio(DivisorPairs(n, n))
    ensures multiset(r)[p] == if Splits(n, p) then 1 else 0
  {
    DivisorPairsOnce(n, r, p);
  }

  /** Any reordering of the divisor pairs of `n` holds each split of `n`
      exactly once, and nothing else. */
  lemma DivisorPairsOnce(n: int, r: seq<Decomposition>, p: Decomposition)
    requires n >= 1 && multiset(r) == multiset(DivisorPairs(n, n))
    ensures multiset(r)[p] == if Splits(n, p) then 1 else 0
  {
    DivisorPairsCount(n, n, p);
    if Splits(n, p) {
      SplitsBounded(n, p);
    }
  }

  /** The loop of `set_parallelization`, collecting divisors from the
      largest down, followed by the sort. */
  method SetParallelization(nprocs: int, nprocio: int) returns (r: Result<seq<Decomposition>>)
    ensures r == Parallelizations(nprocs, nprocio)
  {
    var nxy := nprocs - nprocio;
    if nxy < 1 {
      return Failure(ValueError);
    }
    var parlist: seq<Decomposition> := [];
    var i := nxy;
    while i > 0
      invariant 0 <= i <= nxy
      invariant parlist + DivisorPairs(nxy, i) == DivisorPairs(nxy, nxy)
    {
      DivisorPairsStep(nxy, i);
      if nxy % i == 0 {
        assert parlist + DivisorPairs(nxy, i) == (parlist + [(i, nxy / i)]) + DivisorPairs(nxy, i - 1);
        parlist := parlist + [(i, nxy / i)];
      }
      i := i - 1;
    }
    assert parlist == DivisorPairs(nxy, nxy);
    ParallelizationsSorted(nprocs, nprocio);
    r := Success(SortByRatio(parlist));
  }

  /** The outcome of choosing decomposition number `autoparallel`. */
  datatype Pick = Picked(nprocx: int, nprocy: int) | Skipped | PickFailed(error: PyError)

  /** `parlist[ap-1]` after the check `ap > len(parlist)`, which skips the
      test; Python's negative indices reach back from the end. */
  function PickDecomposition(parlist: seq<Decomposition>, ap: int): (r: Pick)
    ensures r.Skipped? <==> ap > |parlist|
    ensures r.Picked? ==> (r.nprocx, r.nprocy) in parlist
    ensures 1 <= ap <= |parlist| ==> r.Picked? && (r.nprocx, r.nprocy) == parlist[ap - 1]
    ensures r.PickFailed? ==> r.error == IndexError && ap < -|parlist| + 1
  {
    if ap > |parlist| then Skipped
    else if ap >= 1 then Picked(parlist[ap - 1].0, parlist[ap - 1].1)
    else if ap - 1 >= -|parlist| then Picked(parlist[|parlist| + ap - 1].0, parlist[|parlist| + ap - 1].1)
    else PickFailed(IndexError)
  }

  /** The first decomposition offered is at least as square as any way
      of dividing the processors into columns. */
  lemma FirstIsSquarest(nprocs: int, nprocio: int, p: Decomposition)
    requires nprocs - nprocio >= 1 && Splits(nprocs - nprocio, p)
    ensures var r := Parallelizations(nprocs, nprocio).value;
            |r| > 0 && Ratio(r[0]) <= Ratio(p)
  {
    ParallelizationsComplete(nprocs, nprocio, p);
    var r := Parallelizations(nprocs, nprocio).value;
    var k :| 0 <= k < |r| && r[k] == p;
    assert k == 0 || Ratio(r[0]) <= Ratio(r[k]);
  }

  lemma SameSquare(x: int, d: int)
    requires x >= 1 && d >= 1 && x * x == d * d
    ensures x == d
  {
    assert (x - d) * (x + d) == 0;
  }

  lemma SmallMultiple(d: int, m: int, rem: int)
    requires d >= 1 && d * m == rem && 0 <= rem < d
    ensures m == 0
  {
  }

  lemma DivideSquare(d: int)
    requires d >= 1
    ensures (d * d) % d == 0 && (d * d) / d == d
  {
    var n := d * d;
    assert n == d * (n / d) + n % d;
    assert d * (d - n / d) == n % d;
    SmallMultiple(d, d - n / d, n % d);
  }

  /** When the processors form a square, the square comes first. */
  lemma SquareComesFirst(nprocs: int, nprocio: int, d: int)
    requires d >= 1 && nprocs - nprocio == d * d
    ensures PickDecomposition(Parallelizations(nprocs, nprocio).value, 1) == Picked(d, d)
  {
    var n := nprocs - nprocio;
    DivideSquare(d);
    assert Splits(n, (d, d));
    FirstIsSquarest(nprocs, nprocio, (d, d));
    var r := Parallelizations(nprocs, nprocio).value;
    var p := r[0];
    assert Splits(n, p);
    SplitsIsRectangle(n, p);
    assert AspectRatio(d, d) == Success(1.0);
    assert Ratio(p) <= 1.0;
    assert AspectRatio(p.0, p.1).value == 1.0;
    assert p.0 == p.1;
    SameSquare(p.0, d);
  }

  /** 144 processors and no I/O processor give 12 by 12. */
  lemma Decomposition144()
    ensures PickDecomposition(Parallelizations(144, 0).value, 1) == Picked(12, 12)
  {
    SquareComesFirst(144, 0, 12);
  }

  lemma DivisorPairsOf14()
    ensures DivisorPairs(14, 14) == [(14, 1), (7, 2), (2, 7), (1, 14)]
  {
    assert DivisorPairs(14, 1) == [(1, 14)];
    assert DivisorPairs(14, 2) == [(2, 7), (1, 14)];
    assert DivisorPairs(14, 3) == DivisorPairs(14, 2);
    assert DivisorPairs(14, 4) == DivisorPairs(14, 3);
    assert DivisorPairs(14, 5) == DivisorPairs(14, 4);
    assert DivisorPairs(14, 6) == DivisorPairs(14, 5);
    assert DivisorPairs(14, 7) == [(7, 2), (2, 7), (1, 14)];
    assert DivisorPairs(14, 8) == DivisorPairs(14, 7);
    assert DivisorPairs(14, 9) == DivisorPairs(14, 8);
    assert DivisorPairs(14, 10) == DivisorPairs(14, 9);
    assert DivisorPairs(14, 11) == DivisorPairs(14, 10);
    assert DivisorPairs(14, 12) == DivisorPairs(14, 11);
    assert DivisorPairs(14, 13) == DivisorPairs(14, 12);
  }

  /** The aspect ratios of the ways to split 14 processors. */
  lemma RatiosOf14()
    ensures Ratio((14, 1)) == 14.0 && Ratio((1, 14)) == 14.0
    ensures Ratio((7, 2)) == 3.5 && Ratio((2, 7)) == 3.5
  {
    assert AspectRatio(14, 1).value == 14.0 / 1.0;
    assert AspectRatio(1, 14).value == 14.0 / 1.0;
    assert AspectRatio(7, 2).value == 7.0 / 2.0;
    assert AspectRatio(2, 7).value == 7.0 / 2.0;
  }

  /** 16 processors with 2 of them for I/O give 7 by 2: of the two
      decompositions with ratio 3.5 the stable sort keeps the earlier. */
  lemma Decomposition16With2IO()
    ensures PickDecomposition(Parallelizations(16, 2).value, 1) == Picked(7, 2)
  {
    var ps := DivisorPairs(14, 14);
    DivisorPairsOf14();
    RatiosOf14();
    SortHead(ps);
    var k :| EarliestMinimum(ps, k) && SortByRatio(ps)[0] == ps[k];
    assert Ratio(ps[k]) <= Ratio(ps[1]);
    assert k == 1;
  }
}
