/**
 * The older stand-alone runner `run_tests.py`: its comma-list inclusion
 * filter, test collection, the in-place status updates of `run_tests`,
 * `make_test_dir` and the ordering of the results table.
 */
module LegacyRunTests {
  import opened Common
  import Glob
  import Packages

  /** The `status` strings of this runner: 'not run', 'skip', 'pass', 'fail'. */
  datatype Status = NotRun | Skip | Pass | Fail

  function StatusText(s: Status): string {
    match s
    case NotRun => "not run"
    case Skip => "skip"
    case Pass => "pass"
    case Fail => "fail"
  }

  /** One test dict: `file`, `status`, `interpreter` and the extra command-line `args`. */
  datatype Test = Test(file: string, status: Status, interpreter: string, args: seq<string>)

  /** The command-line options this file reads. */
  datatype Options = Options(
    packagesDir: string,
    outputsDir: string,
    outputsSubdir: string,
    regressDir: string,
    includeOpt: string,   // comma-separated glob patterns
    excludeOpt: string,   // comma-separated glob patterns
    cwd: string)          // the working directory `os.path.abspath` resolves against

  const DefaultInclude := "*"
  const DefaultExclude := "*_long"

  // ---------------------------------------------------------------------
  // Inclusion filter

  /**
   * `include_test_file(package, test_file)`: the option strings are split on
   * `,` and each item is stripped and matched as a prefix pattern.
   */
  function IncludeTestFile(package: string, testFile: string, includes: string, excludes: string): (r: bool)
    ensures r == Packages.IncludeTestFile(package, testFile, Split(includes, ','), Split(excludes, ','))
  {
    var path := PathJoin(package, testFile);
    Packages.AnyPrefixMatch(path, Split(includes, ',')) && !Packages.AnyPrefixMatch(path, Split(excludes, ','))
  }

  lemma SplitDefaults()
    ensures Split(DefaultInclude, ',') == [DefaultInclude]
    ensures Split(DefaultExclude, ',') == [DefaultExclude]
    ensures Strip(DefaultExclude) == DefaultExclude
  {
    var e := DefaultExclude;
    SplitNoSep(DefaultInclude, ',');
    SplitNoSep(e, ',');
    assert !IsSpace(e[0]) && !IsSpace(e[|e| - 1]);
    assert LStrip(e) == e;
    assert RStrip(e) == e;
  }

  /**
   * With the default options (`--include='*'`, `--exclude='*_long'`) a test
   * is run exactly when its `package/file` path does not contain `_long`.
   */
  lemma DefaultSkipsLong(package: string, testFile: string)
    ensures IncludeTestFile(package, testFile, DefaultInclude, DefaultExclude)
        <==> !exists i :: Glob.OccursAt(PathJoin(package, testFile), "_long", i)
  {
    var path := PathJoin(package, testFile);
    SplitDefaults();
    Packages.DefaultIncludesEverything(package, testFile);
    DefaultExcludePattern(path);
  }

  /** The default exclude list matches exactly the paths containing `_long`. */
  lemma DefaultExcludePattern(path: string)
    ensures Packages.AnyPrefixMatch(path, [DefaultExclude]) <==> exists i :: Glob.OccursAt(path, "_long", i)
  {
    SplitDefaults();
    OnePattern(path, DefaultExclude);
    assert DefaultExclude + "*" == "*" + "_long" + "*";
    LongIsLiteral();
    Glob.StarLiteralStar("_long", path);
  }

  lemma LongIsLiteral()
    ensures Glob.Literal("_long")
  {
    var s := "_long";
    assert s[0] == '_' && s[1] == 'l' && s[2] == 'o' && s[3] == 'n' && s[4] == 'g';
  }

  lemma OnePattern(path: string, x: string)
    ensures Packages.AnyPrefixMatch(path, [x]) == Glob.Match(Strip(x) + "*", path)
  {
    assert [x][1..] == [];
  }

  // ---------------------------------------------------------------------
  // Collection

  const CopyRegress := "copy_regress_files.py"

  predicate IsTestPy(x: string) { Glob.Match("test*.py", x) }
  predicate IsTestSh(x: string) { Glob.Match("test*.sh", x) }
  predicate IsCopyRegress(x: string) { x == CopyRegress }

  /** `glob('test*.py') + glob('test*.sh') + glob('copy_regress_files.py')`, each in listing order. */
  function CollectFiles(listing: seq<string>): seq<string> {
    Filter(listing, IsTestPy) + Filter(listing, IsTestSh) + Filter(listing, IsCopyRegress)
  }

  /** `test*<ext>` matches the names that start with `test` and end with `ext` after those four letters. */
  lemma TestPattern(ext: string, x: string)
    requires Glob.Literal(ext)
    ensures Glob.Match("test*" + ext, x) <==> StartsWith(x, "test") && EndsWith(x[4..], ext)
  {
    assert "test*" + ext == "test" + ("*" + ext);
    assert Glob.Literal("test");
    Glob.LiteralPrefix("test", "*" + ext, x);
    if StartsWith(x, "test") {
      Glob.StarLiteralSuffix(ext, x[4..]);
    }
  }

  /**
   * The collected names are exactly the listed `test*.py`, `test*.sh` and
   * `copy_regress_files.py` entries, grouped in that order, and no name
   * falls in two groups.
   */
  lemma CollectFilesAre(listing: seq<string>)
    ensures forall x :: x in CollectFiles(listing) <==>
      x in listing && ((StartsWith(x, "test") && (EndsWith(x[4..], ".py") || EndsWith(x[4..], ".sh"))) || x == CopyRegress)
    ensures forall x :: !(IsTestPy(x) && IsTestSh(x)) && !(IsTestPy(x) && IsCopyRegress(x)) && !(IsTestSh(x) && IsCopyRegress(x))
  {
    assert Glob.Literal(".py") && Glob.Literal(".sh");
    forall x ensures IsTestPy(x) <==> StartsWith(x, "test") && EndsWith(x[4..], ".py") {
      TestPattern(".py", x);
      assert "test*" + ".py" == "test*.py";
    }
    forall x ensures IsTestSh(x) <==> StartsWith(x, "test") && EndsWith(x[4..], ".sh") {
      TestPattern(".sh", x);
      assert "test*" + ".sh" == "test*.sh";
    }
    assert !StartsWith(CopyRegress, "test") by { assert CopyRegress[0] == 'c'; }
    forall x | StartsWith(x, "test") && EndsWith(x[4..], ".py") ensures !EndsWith(x[4..], ".sh") {
      assert x[|x| - 2] == 'p';
    }
  }

  /** `'python' if test_file.endswith('.py') else 'bash'`. */
  function InterpreterOf(file: string): (r: string)
    ensures r == "python" <==> EndsWith(file, ".py")
    ensures r == "bash" <==> !EndsWith(file, ".py")
  {
    if EndsWith(file, ".py") then "python" else "bash"
  }

  /** `os.path.abspath(os.path.join(top, outputs_subdir, package))`. */
  function AbsDir(opt: Options, top: string, package: string): (r: string)
    ensures StartsWith(opt.cwd, "/") ==> StartsWith(r, "/")
    ensures r == NormPath(r)
  {
    var p := AbsPath(opt.cwd, PathJoin(PathJoin(top, opt.outputsSubdir), package));
    NormPathIdempotent(PathJoin(opt.cwd, PathJoin(PathJoin(top, opt.outputsSubdir), package)));
    p
  }

  /** The two pattern lists `include_test_file` splits out of the options. */
  datatype Patterns = Patterns(includes: seq<string>, excludes: seq<string>)

  function PatternsOf(opt: Options): Patterns {
    Patterns(Split(opt.includeOpt, ','), Split(opt.excludeOpt, ','))
  }

  /** The record `collect_tests` builds for one collected file of one package. */
  function NewTest(package: string, file: string, pats: Patterns, opt: Options): Test {
    Test(
      file := file,
      status := if Packages.IncludeTestFile(package, file, pats.includes, pats.excludes) then NotRun else Skip,
      interpreter := InterpreterOf(file),
      args := if file == CopyRegress then
                ["--out-dir=" + AbsDir(opt, opt.outputsDir, package),
                 "--regress-dir=" + AbsDir(opt, opt.regressDir, package)]
              else [])
  }

  /**
   * A collected test is 'not run' when the filter includes it and 'skip'
   * otherwise, runs under `python` exactly for `.py` files, and only
   * `copy_regress_files.py` gets arguments: the absolute output and regress
   * directories of its package.
   */
  lemma NewTestFields(package: string, file: string, opt: Options)
    ensures var t := NewTest(package, file, PatternsOf(opt), opt);
      && t.file == file
      && (t.status == NotRun <==> IncludeTestFile(package, file, opt.includeOpt, opt.excludeOpt))
      && (t.status == Skip <==> !IncludeTestFile(package, file, opt.includeOpt, opt.excludeOpt))
      && (t.interpreter == "python" <==> EndsWith(file, ".py"))
      && (t.interpreter == "bash" <==> !EndsWith(file, ".py"))
      && (t.args == [] <==> file != CopyRegress)
      && (file == CopyRegress ==>
            t.args == ["--out-dir=" + AbsDir(opt, opt.outputsDir, package),
                       "--regress-dir=" + AbsDir(opt, opt.regressDir, package)])
  {
  }

  /** The list `collect_tests` builds for one package: one record per collected file, in order. */
  function PackageTests(package: string, listing: seq<string>, opt: Options): (r: seq<Test>)
    ensures |r| == |CollectFiles(listing)|
  {
    NewTests(package, CollectFiles(listing), PatternsOf(opt), opt)
  }

  function NewTests(package: string, files: seq<string>, pats: Patterns, opt: Options): (r: seq<Test>)
    ensures |r| == |files|
  {
    if files == [] then []
    else NewTests(package, files[..|files| - 1], pats, opt) + [NewTest(package, files[|files| - 1], pats, opt)]
  }

  /** The `k`-th record of a package is built from its `k`-th collected file. */
  lemma {:induction false} NewTestsAt(package: string, files: seq<string>, pats: Patterns, opt: Options, k: int)
    requires 0 <= k < |files|
    ensures NewTests(package, files, pats, opt)[k] == NewTest(package, files[k], pats, opt)
    decreases |files|
  {
    if k < |files| - 1 {
      NewTestsAt(package, files[..|files| - 1], pats, opt, k);
      assert files[..|files| - 1][k] == files[k];
    }
  }

  lemma NewTestsSnoc(package: string, files: seq<string>, i: int, pats: Patterns, opt: Options)
    requires 0 <= i < |files|
    ensures NewTests(package, files[..i + 1], pats, opt) == NewTests(package, files[..i], pats, opt) + [NewTest(package, files[i], pats, opt)]
  {
    assert files[..i + 1][..i] == files[..i] && files[..i + 1][i] == files[i];
  }

  /** The inner loop of `collect_tests`: append one record per collected file. */
  method PackageList(package: string, files: seq<string>, pats: Patterns, opt: Options) returns (list: seq<Test>)
    ensures list == NewTests(package, files, pats, opt)
  {
    list := [];
    for i := 0 to |files|
      invariant list == NewTests(package, files[..i], pats, opt)
    {
      NewTestsSnoc(package, files, i, pats, opt);
      list := list + [NewTest(package, files[i], pats, opt)];
    }
    assert files[..|files|] == files;
  }

  /**
   * `collect_tests()`: one list per directory under the packages directory,
   * holding the records of its collected files in collection order.
   */
  method CollectTests(root: map<string, Packages.Node>, opt: Options)
    returns (tests: map<string, seq<Test>>)
    ensures tests.Keys == set p | p in root && root[p].DirNode?
    ensures forall p :: p in tests ==> root[p].DirNode? && tests[p] == PackageTests(p, root[p].listing, opt)
  {
    var packages := set p | p in root && root[p].DirNode?;
    var pats := PatternsOf(opt);
    tests := map[];
    var todo := packages;
    while todo != {}
      invariant todo <= packages
      invariant tests.Keys == packages - todo
      invariant forall p :: p in tests ==> root[p].DirNode? && tests[p] == PackageTests(p, root[p].listing, opt)
      decreases todo
    {
      var package :| package in todo;
      var list := PackageList(package, CollectFiles(root[package].listing), pats, opt);
      tests := tests[package := list];
      todo := todo - {package};
    }
  }

  // ---------------------------------------------------------------------
  // Running

  /** `' '.join([interpreter, test['file']] + test['args'])`: the line handed to the shell. */
  function Command(t: Test): (r: string)
    ensures StartsWith(r, t.interpreter + " " + t.file)
    ensures t.args == [] ==> r == t.interpreter + " " + t.file
  {
    var words := [t.interpreter, t.file] + t.args;
    var head := t.interpreter + " " + t.file;
    var tail := Join([t.file] + t.args, " ");
    assert words[1..] == [t.file] + t.args;
    assert ([t.file] + t.args)[1..] == t.args;
    assert tail == if t.args == [] then t.file else t.file + " " + Join(t.args, " ");
    assert Join(words, " ") == t.interpreter + " " + tail;
    assert (t.interpreter + " " + tail)[..|head|] == head;
    Join(words, " ")
  }


  /**
   * The shell sees the interpreter, the file and the args as separate words
   * exactly as collected, as long as none of them contains a space (a space
   * in the output or regress directory would split an argument).
   */
  lemma CommandWords(t: Test)
    requires ' ' !in t.interpreter && ' ' !in t.file
    requires forall i :: 0 <= i < |t.args| ==> ' ' !in t.args[i]
    ensures Split(Command(t), ' ') == [t.interpreter, t.file] + t.args
  {
    var parts := [t.interpreter, t.file] + t.args;
    forall i | 0 <= i < |parts| ensures ' ' !in parts[i] {
      if i >= 2 { assert parts[i] == t.args[i - 2]; }
    }
    assert " " == [' '];
    SplitJoin(parts, ' ');
  }

  /**
   * One test after `run_tests`: a skipped test is left alone; any other ends
   * `pass` when its command exits with status zero and `fail` otherwise.
   * `succeeds` stands for running the command under `bash`.
   */
  function Ran(t: Test, succeeds: string -> bool): (r: Test)
    ensures r.file == t.file && r.interpreter == t.interpreter && r.args == t.args
    ensures t.status == Skip ==> r == t
    ensures t.status != Skip ==> (r.status == Pass <==> succeeds(Command(t)))
    ensures t.status != Skip ==> (r.status == Fail <==> !succeeds(Command(t)))
  {
    if t.status == Skip then t
    else t.(status := if succeeds(Command(t)) then Pass else Fail)
  }

  /** What `run_tests` returns: `[]` when it bailed out, `None` after running. */
  datatype Outcome = NothingIncluded | Completed

  /** `run_tests(package, tests)`, updating each test dict of the list in place. */
  method RunTests(tests: array<Test>, succeeds: string -> bool) returns (r: Outcome)
    modifies tests
    ensures r == NothingIncluded <==> forall k :: 0 <= k < tests.Length ==> old(tests[k]).status == Skip
    ensures forall k :: 0 <= k < tests.Length ==> tests[k] == Ran(old(tests[k]), succeeds)
  {
    var included := false;
    for i := 0 to tests.Length
      invariant included <==> exists k :: 0 <= k < i && tests[k].status != Skip
    {
      if tests[i].status != Skip {
        included := true;
      }
    }
    if !included {
      return NothingIncluded;
    }
    for i := 0 to tests.Length
      invariant forall k :: 0 <= k < i ==> tests[k] == Ran(old(tests[k]), succeeds)
      invariant forall k :: i <= k < tests.Length ==> tests[k] == old(tests[k])
    {
      if tests[i].status != Skip {
        var cmd := Command(tests[i]);
        tests[i] := tests[i].(status := if succeeds(cmd) then Pass else Fail);
      }
    }
    r := Completed;
  }

  /** After a run, no test of the package is left 'not run'. */
  lemma NoTestLeftNotRun(ts: seq<Test>, succeeds: string -> bool)
    ensures forall k :: 0 <= k < |ts| ==> Ran(ts[k], succeeds).status != NotRun
  {
  }

  // ---------------------------------------------------------------------
  // The output directory

  /** The part of the file system `make_test_dir` touches: directories and symbolic links. */
  datatype Disk = Disk(dirs: set<string>, links: map<string, string>)

  /** `p` is `top` or lies below it. */
  predicate Under(p: string, top: string) {
    p == top || StartsWith(p, top + "/")
  }

  /** `shutil.rmtree(top)`: `top` and everything below it go. */
  function RemoveTree(disk: Disk, top: string): Disk {
    Disk(set d | d in disk.dirs && !Under(d, top),
         map l | l in disk.links && !Under(l, top) :: disk.links[l])
  }

  /** `os.path.exists(p)`: a directory, or a link whose target (relative to `base`) is one. */
  predicate Exists(disk: Disk, base: string, p: string) {
    p in disk.dirs || (p in disk.links && PathJoin(base, disk.links[p]) in disk.dirs)
  }

  /** The directory of this run. */
  function TestDir(outputsDir: string, subdir: string): string {
    PathJoin(outputsDir, subdir)
  }

  /** The confirmation test: `answer.lower() == 'y'`. */
  predicate Confirmed(answer: string) {
    Lower(answer) == "y"
  }

  /**
   * `make_test_dir()` as written. `answer` is what the user types when asked
   * whether to remove an existing output directory.
   */
  function MakeTestDir(disk: Disk, outputsDir: string, subdir: string, answer: string): (r: Result<Disk>)
    ensures var testDir := TestDir(outputsDir, subdir);
      r == Err(OutputDirExists(testDir)) <==> testDir in disk.dirs && !Confirmed(answer)
  {
    var testDir := TestDir(outputsDir, subdir);
    var d1 := if testDir in disk.dirs && Confirmed(answer) then RemoveTree(disk, testDir) else disk;
    if testDir in d1.dirs then Err(OutputDirExists(testDir))
    else
      var d2 := Disk(d1.dirs + {testDir}, d1.links);
      var last := PathJoin(outputsDir, "last");
      // `os.path.exists('last')` follows the link; `os.unlink` fails on a directory
      if last in d2.dirs then Err(IsADirectory(last))
      else
        var d3 := if Exists(d2, outputsDir, last) then Disk(d2.dirs, d2.links - {last}) else d2;
        if last in d3.links then Err(FileExists(last))
        else Ok(Disk(d3.dirs, d3.links[last := subdir]))
  }

  /**
   * `make_test_dir()` with `os.path.lexists`, which also sees a link whose
   * target has gone: any old `last` link is replaced.
   */
  function MakeTestDirCorrected(disk: Disk, outputsDir: string, subdir: string, answer: string): (r: Result<Disk>)
    ensures var testDir := TestDir(outputsDir, subdir);
      r == Err(OutputDirExists(testDir)) <==> testDir in disk.dirs && !Confirmed(answer)
  {
    var testDir := TestDir(outputsDir, subdir);
    var d1 := if testDir in disk.dirs && Confirmed(answer) then RemoveTree(disk, testDir) else disk;
    if testDir in d1.dirs then Err(OutputDirExists(testDir))
    else
      var d2 := Disk(d1.dirs + {testDir}, d1.links);
      var last := PathJoin(outputsDir, "last");
      if last in d2.dirs then Err(IsADirectory(last))
      else Ok(Disk(d2.dirs, d2.links[last := subdir]))
  }

  /**
   * The corrected `make_test_dir` succeeds unless the run directory is kept
   * or `last` is a real directory; then the run directory exists, is empty,
   * `last` points to it, and nothing outside it changed.
   */
  lemma MakeTestDirCorrectedResult(disk: Disk, outputsDir: string, subdir: string, answer: string)
    requires !Under(PathJoin(outputsDir, "last"), TestDir(outputsDir, subdir))
    ensures var testDir := TestDir(outputsDir, subdir);
      var last := PathJoin(outputsDir, "last");
      var r := MakeTestDirCorrected(disk, outputsDir, subdir, answer);
      && (r.Ok? <==> !(testDir in disk.dirs && !Confirmed(answer)) && last !in disk.dirs)
      && (r.Ok? ==>
            && testDir in r.value.dirs
            && r.value.links[last] == subdir
            && (testDir in disk.dirs ==> forall d :: d in r.value.dirs && Under(d, testDir) ==> d == testDir)
            && (forall d :: !Under(d, testDir) ==> (d in r.value.dirs <==> d in disk.dirs))
            && (forall l :: l != last && !Under(l, testDir) ==>
                  (l in r.value.links <==> l in disk.links) && (l in disk.links ==> r.value.links[l] == disk.links[l])))
  {
    var testDir := TestDir(outputsDir, subdir);
    var last := PathJoin(outputsDir, "last");
    var d1 := if testDir in disk.dirs && Confirmed(answer) then RemoveTree(disk, testDir) else disk;
    ClearedOutside(disk, d1, testDir, testDir in disk.dirs && Confirmed(answer));
    assert last in d1.dirs <==> last in disk.dirs;
    assert last != testDir;
    var r := MakeTestDirCorrected(disk, outputsDir, subdir, answer);
    if r.Ok? {
      assert r.value == Disk(d1.dirs + {testDir}, d1.links[last := subdir]);
    }
  }

  /** Removing the tree at `top`, or not, changes nothing outside it; removing it leaves nothing under it. */
  lemma ClearedOutside(disk: Disk, d1: Disk, top: string, remove: bool)
    requires d1 == if remove then RemoveTree(disk, top) else disk
    ensures forall d :: !Under(d, top) ==> (d in d1.dirs <==> d in disk.dirs)
    ensures forall l :: !Under(l, top) ==> (l in d1.links <==> l in disk.links) && (l in d1.links ==> d1.links[l] == disk.links[l])
    ensures remove ==> forall d :: d in d1.dirs ==> !Under(d, top)
    ensures !remove ==> d1 == disk
  {
  }

  /** Joining two relative names puts one `/` between them. */
  lemma PlainJoin(a: string, b: string)
    requires a != [] && a[|a| - 1] != '/' && b != [] && b[0] != '/'
    ensures PathJoin(a, b) == a + "/" + b
  {
    assert !StartsWith(b, "/") by { assert b[..1] != "/"; }
    assert !EndsWith(a, "/") by { assert a[|a| - 1..] != "/"; }
  }

  /**
   * A dangling `last` link (its target directory has been deleted) makes the
   * code as written fail after it has already created the run directory.
   */
  lemma DanglingLastLinkFails()
    ensures var disk := Disk({"outputs"}, map["outputs/last" := "old"]);
      && MakeTestDir(disk, "outputs", "new", "") == Err(FileExists("outputs/last"))
      && MakeTestDirCorrected(disk, "outputs", "new", "").Ok?
  {
    var disk := Disk({"outputs"}, map["outputs/last" := "old"]);
    OutputsPaths();
    assert !Confirmed("") by { assert Lower("") == ""; }
  }

  /** The three paths of the dangling-link example, and that they are distinct. */
  lemma OutputsPaths()
    ensures PathJoin("outputs", "new") == "outputs/new"
    ensures PathJoin("outputs", "last") == "outputs/last"
    ensures PathJoin("outputs", "old") == "outputs/old"
    ensures "outputs/new" != "outputs/last" && "outputs/old" != "outputs" && "outputs/old" != "outputs/new"
  {
    PlainJoin("outputs", "new");
    PlainJoin("outputs", "last");
    PlainJoin("outputs", "old");
    assert "outputs" + "/" + "new" == "outputs/new";
    assert "outputs" + "/" + "last" == "outputs/last";
    assert "outputs" + "/" + "old" == "outputs/old";
    assert "outputs/new"[8] == 'n' && "outputs/last"[8] == 'l' && "outputs/old"[8] == 'o';
  }

  /**
   * Where the old link resolves, and not to a directory that the confirmed
   * removal deletes for good, the code as written and the corrected one agree.
   */
  lemma MakeTestDirAgrees(disk: Disk, outputsDir: string, subdir: string, answer: string)
    requires var last := PathJoin(outputsDir, "last");
      last in disk.links ==>
        var target := PathJoin(outputsDir, disk.links[last]);
        target in disk.dirs && (Under(target, TestDir(outputsDir, subdir)) ==> target == TestDir(outputsDir, subdir))
    requires !Under(PathJoin(outputsDir, "last"), TestDir(outputsDir, subdir))
    ensures MakeTestDir(disk, outputsDir, subdir, answer) == MakeTestDirCorrected(disk, outputsDir, subdir, answer)
  {
    var testDir := TestDir(outputsDir, subdir);
    var last := PathJoin(outputsDir, "last");
    var d1 := if testDir in disk.dirs && Confirmed(answer) then RemoveTree(disk, testDir) else disk;
    var d2 := Disk(d1.dirs + {testDir}, d1.links);
    LinkStillResolves(disk, d1, outputsDir, subdir, testDir in disk.dirs && Confirmed(answer));
    if testDir !in d1.dirs && last !in d2.dirs && last in d2.links {
      assert Exists(d2, outputsDir, last);
      assert (d2.links - {last})[last := subdir] == d2.links[last := subdir];
    }
  }

  /** After the optional removal and the new directory, an old `last` link still resolves. */
  lemma LinkStillResolves(disk: Disk, d1: Disk, outputsDir: string, subdir: string, remove: bool)
    requires d1 == if remove then RemoveTree(disk, TestDir(outputsDir, subdir)) else disk
    requires var last := PathJoin(outputsDir, "last");
      last in disk.links ==>
        var target := PathJoin(outputsDir, disk.links[last]);
        target in disk.dirs && (Under(target, TestDir(outputsDir, subdir)) ==> target == TestDir(outputsDir, subdir))
    requires !Under(PathJoin(outputsDir, "last"), TestDir(outputsDir, subdir))
    ensures var last := PathJoin(outputsDir, "last");
      last in d1.links ==> Exists(Disk(d1.dirs + {TestDir(outputsDir, subdir)}, d1.links), outputsDir, last)
  {
    var testDir := TestDir(outputsDir, subdir);
    var last := PathJoin(outputsDir, "last");
    ClearedOutside(disk, d1, testDir, remove);
    if last in d1.links {
      assert last in disk.links && d1.links[last] == disk.links[last];
      var target := PathJoin(outputsDir, disk.links[last]);
      assert target in d1.dirs || target == testDir;
    }
  }

  // ---------------------------------------------------------------------
  // Results table

  /** One row of the results table: package, script and status. */
  datatype Row = Row(package: string, script: string, status: Status)

  function PackageRows(package: string, ts: seq<Test>): (r: seq<Row>)
    ensures |r| == |ts|
    ensures forall k :: 0 <= k < |ts| ==> r[k] == Row(package, ts[k].file, ts[k].status)
  {
    seq(|ts|, k requires 0 <= k < |ts| => Row(package, ts[k].file, ts[k].status))
  }

  /** The rows of the packages `keys`, in that order. */
  function RowsOf(keys: seq<string>, tests: map<string, seq<Test>>): seq<Row>
    requires forall k :: k in keys ==> k in tests
  {
    if keys == [] then []
    else RowsOf(keys[..|keys| - 1], tests) + PackageRows(keys[|keys| - 1], tests[keys[|keys| - 1]])
  }

  /** `get_results_table(tests)`: the rows of every package, packages in sorted order. */
  method GetResultsTable(tests: map<string, seq<Test>>) returns (rows: seq<Row>)
    ensures rows == RowsOf(SortedKeys(tests.Keys), tests)
  {
    var keys := SortedKeys(tests.Keys);
    assert forall k :: k in keys ==> k in tests;
    rows := [];
    for i := 0 to |keys|
      invariant rows == RowsOf(keys[..i], tests)
    {
      rows := AddPackageRows(rows, keys[i], tests[keys[i]]);
      RowsOfSnoc(keys, i, tests);
    }
    assert keys[..|keys|] == keys;
  }

  /** The inner loop of `get_results_table`: one row per test of the package. */
  method AddPackageRows(rows0: seq<Row>, package: string, ts: seq<Test>) returns (rows: seq<Row>)
    ensures rows == rows0 + PackageRows(package, ts)
  {
    rows := rows0;
    for j := 0 to |ts|
      invariant rows == rows0 + PackageRows(package, ts[..j])
    {
      PackageRowsSnoc(package, ts, j);
      rows := rows + [Row(package, ts[j].file, ts[j].status)];
    }
    assert ts[..|ts|] == ts;
  }

  lemma PackageRowsSnoc(package: string, ts: seq<Test>, j: int)
    requires 0 <= j < |ts|
    ensures PackageRows(package, ts[..j + 1]) == PackageRows(package, ts[..j]) + [Row(package, ts[j].file, ts[j].status)]
  {
  }

  lemma RowsOfSnoc(keys: seq<string>, i: int, tests: map<string, seq<Test>>)
    requires 0 <= i < |keys| && forall k :: k in keys ==> k in tests
    ensures RowsOf(keys[..i + 1], tests) == RowsOf(keys[..i], tests) + PackageRows(keys[i], tests[keys[i]])
  {
    assert keys[..i + 1][..i] == keys[..i] && keys[..i + 1][i] == keys[i];
  }

  /** Every row comes from a listed package whose test list holds that script with that status. */
  lemma {:induction false} RowsFromTests(keys: seq<string>, tests: map<string, seq<Test>>)
    requires forall k :: k in keys ==> k in tests
    ensures |RowsOf(keys, tests)| == SizeOf(keys, tests)
    ensures forall r :: r in RowsOf(keys, tests) ==>
      r.package in keys && exists k :: 0 <= k < |tests[r.package]| && r == Row(r.package, tests[r.package][k].file, tests[r.package][k].status)
    decreases |keys|
  {
    if keys != [] {
      var init := keys[..|keys| - 1];
      var p := keys[|keys| - 1];
      RowsFromTests(init, tests);
      forall r | r in RowsOf(keys, tests)
        ensures r.package in keys && exists k :: 0 <= k < |tests[r.package]| && r == Row(r.package, tests[r.package][k].file, tests[r.package][k].status)
      {
        if r in RowsOf(init, tests) {
          assert r.package in init;
        } else {
          assert r in PackageRows(p, tests[p]);
          var k :| 0 <= k < |tests[p]| && PackageRows(p, tests[p])[k] == r;
        }
      }
    }
  }

  /** The number of tests of the packages `keys`. */
  function SizeOf(keys: seq<string>, tests: map<string, seq<Test>>): nat
    requires forall k :: k in keys ==> k in tests
  {
    if keys == [] then 0 else SizeOf(keys[..|keys| - 1], tests) + |tests[keys[|keys| - 1]]|
  }

  /** With the packages in sorted order, the rows are ordered by package. */
  lemma {:induction false} RowsInPackageOrder(keys: seq<string>, tests: map<string, seq<Test>>)
    requires forall k :: k in keys ==> k in tests
    requires Sorted(keys)
    ensures var rows := RowsOf(keys, tests);
      forall i, j :: 0 <= i < j < |rows| ==> !Below(rows[j].package, rows[i].package)
    decreases |keys|
  {
    if keys != [] {
      var init := keys[..|keys| - 1];
      var p := keys[|keys| - 1];
      assert Sorted(init);
      RowsInPackageOrder(init, tests);
      RowsFromTests(init, tests);
      var a := RowsOf(init, tests);
      var b := PackageRows(p, tests[p]);
      var rows := a + b;
      forall i, j | 0 <= i < j < |rows| ensures !Below(rows[j].package, rows[i].package) {
        if j < |a| {
          assert rows[i] == a[i] && rows[j] == a[j];
        } else if i < |a| {
          assert rows[i] == a[i] && a[i] in a;
          var m :| 0 <= m < |init| && init[m] == a[i].package;
          assert rows[j].package == p == keys[|keys| - 1] && init[m] == keys[m];
        } else {
          BelowIrreflexive(p);
        }
      }
    }
  }

  /** The rows of one package, taken in order. */
  function RowsFor(rows: seq<Row>, package: string): seq<Row> {
    if rows == [] then []
    else RowsFor(rows[..|rows| - 1], package) + (if rows[|rows| - 1].package == package then [rows[|rows| - 1]] else [])
  }

  lemma {:induction false} RowsForAppend(a: seq<Row>, b: seq<Row>, package: string)
    ensures RowsFor(a + b, package) == RowsFor(a, package) + RowsFor(b, package)
    decreases |b|
  {
    if b == [] {
      assert a + b == a;
    } else {
      var b' := b[..|b| - 1];
      var x := b[|b| - 1];
      var tail := if x.package == package then [x] else [];
      RowsForAppend(a, b', package);
      assert (a + b)[..|a + b| - 1] == a + b' && (a + b)[|a + b| - 1] == x;
      assert RowsFor(a + b, package) == RowsFor(a + b', package) + tail;
      assert RowsFor(b, package) == RowsFor(b', package) + tail;
      assert RowsFor(a, package) + RowsFor(b', package) + tail == RowsFor(a, package) + (RowsFor(b', package) + tail);
    }
  }

  lemma {:induction false} RowsForPackage(q: string, ts: seq<Test>, package: string)
    ensures RowsFor(PackageRows(q, ts), package) == if q == package then PackageRows(q, ts) else []
    decreases |ts|
  {
    if ts != [] {
      var ts' := ts[..|ts| - 1];
      RowsForPackage(q, ts', package);
      assert PackageRows(q, ts)[..|ts| - 1] == PackageRows(q, ts');
      assert PackageRows(q, ts) == PackageRows(q, ts') + [PackageRows(q, ts)[|ts| - 1]];
    }
  }

  /**
   * Each package's rows, read in table order, are its tests in collected
   * order; a package appears in one block only.
   */
  lemma {:induction false} RowsOfOnePackage(keys: seq<string>, tests: map<string, seq<Test>>, package: string)
    requires forall k :: k in keys ==> k in tests
    requires forall i, j :: 0 <= i < j < |keys| ==> keys[i] != keys[j]
    ensures RowsFor(RowsOf(keys, tests), package) == if package in keys then PackageRows(package, tests[package]) else []
    decreases |keys|
  {
    if keys != [] {
      var init := keys[..|keys| - 1];
      var p := keys[|keys| - 1];
      DistinctInit(keys);
      RowsOfOnePackage(init, tests, package);
      RowsForAppend(RowsOf(init, tests), PackageRows(p, tests[p]), package);
      RowsForPackage(p, tests[p], package);
    }
  }

  /** Dropping the last entry of a repeat-free sequence leaves one without it. */
  lemma DistinctInit(keys: seq<string>)
    requires keys != []
    requires forall i, j :: 0 <= i < j < |keys| ==> keys[i] != keys[j]
    ensures var init := keys[..|keys| - 1];
      && (forall i, j :: 0 <= i < j < |init| ==> init[i] != init[j])
      && keys[|keys| - 1] !in init
      && (forall x :: x in keys <==> x in init || x == keys[|keys| - 1])
  {
    var init := keys[..|keys| - 1];
    assert keys == init + [keys[|keys| - 1]];
    forall m | 0 <= m < |init| ensures init[m] != keys[|keys| - 1] {
      assert init[m] == keys[m];
    }
  }

  /** The results table lists each package's tests in collected order, packages sorted. */
  lemma ResultsTableOrder(tests: map<string, seq<Test>>, package: string)
    ensures var rows := RowsOf(SortedKeys(tests.Keys), tests);
      && (forall i, j :: 0 <= i < j < |rows| ==> !Below(rows[j].package, rows[i].package))
      && RowsFor(rows, package) == if package in tests then PackageRows(package, tests[package]) else []
  {
    var keys := SortedKeys(tests.Keys);
    RowsInPackageOrder(keys, tests);
    assert forall i, j :: 0 <= i < j < |keys| ==> keys[i] != keys[j] by {
      forall i, j | 0 <= i < j < |keys| ensures keys[i] != keys[j] {
        if keys[i] == keys[j] {
          DistinctKeys(keys, tests.Keys, i, j);
        }
      }
    }
    RowsOfOnePackage(keys, tests, package);
  }

  /** A sequence listing a set with as many entries as the set has no repeats. */
  lemma DistinctKeys(keys: seq<string>, s: set<string>, i: int, j: int)
    requires |keys| == |s| && (forall x :: x in keys <==> x in s)
    requires 0 <= i < j < |keys|
    ensures keys[i] != keys[j]
  {
    if keys[i] == keys[j] {
      var rest := keys[..j] + keys[j + 1..];
      assert keys == keys[..j] + [keys[j]] + keys[j + 1..];
      assert forall x :: x in s ==> x in rest by {
        forall x | x in s ensures x in rest {
          assert x in keys;
          var m :| 0 <= m < |keys| && keys[m] == x;
          if m == j { assert rest[i] == keys[i]; }
          else if m < j { assert rest[m] == keys[m]; }
          else { assert rest[m - 1] == keys[m]; }
        }
      }
      SetOfSeqSize(rest, s);
    }
  }

  /** A set whose members all occur in a sequence is no larger than the sequence. */
  lemma {:induction false} SetOfSeqSize(xs: seq<string>, s: set<string>)
    requires forall x :: x in s ==> x in xs
    ensures |s| <= |xs|
    decreases |xs|
  {
    if xs != [] {
      var s' := s - {xs[0]};
      forall x | x in s' ensures x in xs[1..] {
        var m :| 0 <= m < |xs| && xs[m] == x;
        assert m != 0;
        assert xs[1..][m - 1] == x;
      }
      SetOfSeqSize(xs[1..], s');
    } else {
      assert s == {};
    }
  }
}
