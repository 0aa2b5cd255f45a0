/**
 * Test discovery and the inclusion filter of `testr/packages.py`: the test
 * records the orchestrator keeps per package, `include_test_file` and
 * `collect_tests`.
 */
module Packages {
  import opened Common
  import Glob

  datatype Interpreter = Python | Bash | NoInterpreter

  /** The `status` values a test record takes: 'not run', '----', 'pass', 'FAIL'. */
  datatype Status = NotRun | Skipped | Pass | Fail

  function StatusText(s: Status): string {
    match s
    case NotRun => "not run"
    case Skipped => "----"
    case Pass => "pass"
    case Fail => "FAIL"
  }

  /** One test dict as built by `collect_tests` and updated by `run_tests`. */
  datatype TestRecord = TestRecord(
    file: string,
    status: Status,
    interpreter: Interpreter,
    outDir: string,
    regressDir: string,
    packagesRepo: string,
    package: string,
    packageVersion: string,
    tStart: Option<string>,     // set when the test is started
    tStop: Option<string>)      // set when the test has finished

  // ---------------------------------------------------------------------
  // Inclusion filter

  /** `any(fnmatch(path, x.strip() + '*') for x in patterns)`. */
  function AnyPrefixMatch(path: string, patterns: seq<string>): (r: bool)
    ensures r <==> exists i :: 0 <= i < |patterns| && Glob.Match(Strip(patterns[i]) + "*", path)
  {
    if patterns == [] then false
    else if Glob.Match(Strip(patterns[0]) + "*", path) then true
    else AnyPrefixMatch(path, patterns[1..])
  }

  /** `include_test_file(package, test_file)` with the options passed in. */
  function IncludeTestFile(package: string, testFile: string,
                           includes: seq<string>, excludes: seq<string>): (r: bool)
    ensures r <==>
      && (exists i :: 0 <= i < |includes| && Glob.Match(Strip(includes[i]) + "*", PathJoin(package, testFile)))
      && (forall j :: 0 <= j < |excludes| ==> !Glob.Match(Strip(excludes[j]) + "*", PathJoin(package, testFile)))
    ensures includes == [] ==> !r
  {
    var path := PathJoin(package, testFile);
    AnyPrefixMatch(path, includes) && !AnyPrefixMatch(path, excludes)
  }

  /** A pattern list matches `path` iff one of its stripped patterns matches a prefix of it. */
  lemma AnyPrefixMatchIsPrefix(path: string, patterns: seq<string>)
    ensures AnyPrefixMatch(path, patterns) <==>
      exists i, k :: 0 <= i < |patterns| && 0 <= k <= |path| && Glob.Match(Strip(patterns[i]), path[..k])
  {
    if AnyPrefixMatch(path, patterns) {
      var i :| 0 <= i < |patterns| && Glob.Match(Strip(patterns[i]) + "*", path);
      Glob.StarSuffixIsPrefixMatch(Strip(patterns[i]), path);
      var k :| 0 <= k <= |path| && Glob.Match(Strip(patterns[i]), path[..k]);
    }
    if exists i, k :: 0 <= i < |patterns| && 0 <= k <= |path| && Glob.Match(Strip(patterns[i]), path[..k]) {
      var i, k :| 0 <= i < |patterns| && 0 <= k <= |path| && Glob.Match(Strip(patterns[i]), path[..k]);
      Glob.StarSuffixIsPrefixMatch(Strip(patterns[i]), path);
    }
  }

  /**
   * A test is included iff some include pattern is matched by a prefix of
   * `package/file` and no exclude pattern is.
   */
  lemma IncludeIsPrefixFilter(package: string, testFile: string,
                              includes: seq<string>, excludes: seq<string>)
    ensures var path := PathJoin(package, testFile);
      IncludeTestFile(package, testFile, includes, excludes) <==>
        (exists i, k :: 0 <= i < |includes| && 0 <= k <= |path| && Glob.Match(Strip(includes[i]), path[..k]))
        && !(exists j, k :: 0 <= j < |excludes| && 0 <= k <= |path| && Glob.Match(Strip(excludes[j]), path[..k]))
  {
    var path := PathJoin(package, testFile);
    AnyPrefixMatchIsPrefix(path, includes);
    AnyPrefixMatchIsPrefix(path, excludes);
  }

  /** The filter depends on the sets of patterns only, not on their order or repetition. */
  lemma IncludeIgnoresPatternOrder(package: string, testFile: string,
                                   includes: seq<string>, excludes: seq<string>,
                                   includes': seq<string>, excludes': seq<string>)
    requires forall x :: x in includes <==> x in includes'
    requires forall x :: x in excludes <==> x in excludes'
    ensures IncludeTestFile(package, testFile, includes, excludes)
         == IncludeTestFile(package, testFile, includes', excludes')
  {
    var path := PathJoin(package, testFile);
    SamePatternsSameAnswer(path, includes, includes');
    SamePatternsSameAnswer(path, excludes, excludes');
  }

  lemma SamePatternsSameAnswer(path: string, ps: seq<string>, qs: seq<string>)
    requires forall x :: x in ps <==> x in qs
    ensures AnyPrefixMatch(path, ps) == AnyPrefixMatch(path, qs)
  {
    if AnyPrefixMatch(path, ps) {
      var i :| 0 <= i < |ps| && Glob.Match(Strip(ps[i]) + "*", path);
      assert ps[i] in qs;
      var j :| 0 <= j < |qs| && qs[j] == ps[i];
    }
    if AnyPrefixMatch(path, qs) {
      var i :| 0 <= i < |qs| && Glob.Match(Strip(qs[i]) + "*", path);
      assert qs[i] in ps;
      var j :| 0 <= j < |ps| && ps[j] == qs[i];
    }
  }

  lemma StripStar()
    ensures Strip("*") == "*"
  {
    assert !IsSpace('*');
    assert LStrip("*") == "*";
    assert RStrip("*") == "*";
  }

  /** With the default options (`includes == ['*']`, no excludes) every test is included. */
  lemma DefaultIncludesEverything(package: string, testFile: string)
    ensures IncludeTestFile(package, testFile, ["*"], [])
  {
    var path := PathJoin(package, testFile);
    StripStar();
    Glob.StarMatchesAll(path);
    assert "**"[1..] == "*";
    assert Glob.Match("**", path);
    assert Strip(["*"][0]) + "*" == "**";
  }

  // ---------------------------------------------------------------------
  // Discovery

  /** A directory entry under the packages root: a file, or a directory and its listing. */
  datatype Node = FileNode | DirNode(listing: seq<string>)

  predicate IsTestName(x: string) { StartsWith(x, "test_") }
  predicate IsPostName(x: string) { StartsWith(x, "post_") }
  predicate IsScript(x: string) { EndsWith(x, ".py") || EndsWith(x, ".sh") }

  /** `sorted(glob('test_*')) + sorted(glob('post_*'))`, keeping `.py` and `.sh` names. */
  function CollectFiles(listing: seq<string>): seq<string> {
    Filter(Sort(Filter(listing, IsTestName)) + Sort(Filter(listing, IsPostName)), IsScript)
  }

  /** Filtering distributes over concatenation. */
  lemma {:induction false} FilterAppend(a: seq<string>, b: seq<string>, p: string -> bool)
    ensures Filter(a + b, p) == Filter(a, p) + Filter(b, p)
    decreases |a|
  {
    if a == [] {
      assert a + b == b;
    } else {
      var h := if p(a[0]) then [a[0]] else [];
      FilterAppend(a[1..], b, p);
      TailOfAppend(a, b);
      assert Filter(a + b, p) == h + Filter(a[1..] + b, p);
      assert Filter(a, p) == h + Filter(a[1..], p);
      assert h + (Filter(a[1..], p) + Filter(b, p)) == (h + Filter(a[1..], p)) + Filter(b, p);
    }
  }

  lemma TailOfAppend(a: seq<string>, b: seq<string>)
    requires a != []
    ensures (a + b)[0] == a[0] && (a + b)[1..] == a[1..] + b
  {
  }

  /**
   * The collected files are the sorted `test_*` scripts followed by the
   * sorted `post_*` scripts, and exactly the `.py`/`.sh` names of the listing
   * with one of those prefixes.
   */
  lemma CollectFilesOrder(listing: seq<string>)
    ensures exists tests, posts ::
      && CollectFiles(listing) == tests + posts
      && Sorted(tests) && Sorted(posts)
      && (forall x :: x in tests <==> x in listing && IsTestName(x) && IsScript(x))
      && (forall x :: x in posts <==> x in listing && IsPostName(x) && IsScript(x))
  {
    var ts := Sort(Filter(listing, IsTestName));
    var ps := Sort(Filter(listing, IsPostName));
    FilterAppend(ts, ps, IsScript);
    FilterSorted(ts, IsScript);
    FilterSorted(ps, IsScript);
    var tests := Filter(ts, IsScript);
    var posts := Filter(ps, IsScript);
    SortFilterMembers(listing, IsTestName);
    SortFilterMembers(listing, IsPostName);
    assert CollectFiles(listing) == tests + posts;
  }

  /** Sorting the names that pass a test keeps exactly those names. */
  lemma SortFilterMembers(listing: seq<string>, p: string -> bool)
    ensures forall x :: x in Sort(Filter(listing, p)) <==> x in listing && p(x)
  {
    var f := Filter(listing, p);
    forall x ensures x in Sort(f) <==> x in f {
      assert x in Sort(f) <==> x in multiset(Sort(f));
      assert x in f <==> x in multiset(f);
    }
  }

  /** The interpreter tag inferred from the file suffix. */
  function InterpreterOf(file: string): (r: Interpreter)
    ensures r == Python <==> EndsWith(file, ".py")
    ensures r == Bash <==> !EndsWith(file, ".py") && EndsWith(file, ".sh")
  {
    if EndsWith(file, ".py") then Python
    else if EndsWith(file, ".sh") then Bash
    else NoInterpreter
  }

  /** The options `collect_tests` reads. */
  datatype CollectOptions = CollectOptions(
    logDir: string,
    regressDir: string,
    packagesRepo: string,
    includes: seq<string>,
    excludes: seq<string>)

  /** The record `collect_tests` builds for one test file of one package. */
  function NewRecord(package: string, version: string, file: string, opt: CollectOptions): (t: TestRecord)
    ensures t.file == file && t.package == package && t.tStart.None? && t.tStop.None?
    ensures t.status == NotRun <==> IncludeTestFile(package, file, opt.includes, opt.excludes)
    ensures t.status == Skipped <==> !IncludeTestFile(package, file, opt.includes, opt.excludes)
    ensures t.interpreter == InterpreterOf(file)
  {
    TestRecord(
      file := file,
      status := if IncludeTestFile(package, file, opt.includes, opt.excludes) then NotRun else Skipped,
      interpreter := InterpreterOf(file),
      outDir := PathJoin(opt.logDir, package),
      regressDir := PathJoin(opt.regressDir, package),
      packagesRepo := opt.packagesRepo,
      package := package,
      packageVersion := version,
      tStart := None,
      tStop := None)
  }

  /** The package version: `ska_helpers.get_version(package)`, or 'unknown' when that raises. */
  function VersionOf(package: string, versions: string -> Option<string>): string {
    match versions(package)
    case Some(v) => v
    case None => "unknown"
  }

  /** The list `collect_tests` builds for one package, one record per collected file. */
  function PackageTests(package: string, listing: seq<string>, versions: string -> Option<string>,
                        opt: CollectOptions): (r: seq<TestRecord>)
    ensures |r| == |CollectFiles(listing)|
  {
    Records(package, VersionOf(package, versions), CollectFiles(listing), opt)
  }

  /** One record per file, in the order of the files. */
  function Records(package: string, version: string, files: seq<string>, opt: CollectOptions)
    : seq<TestRecord>
  {
    MapSeq(files, RecordOf(package, version, opt))
  }

  /** The record of each file of one package. */
  function RecordOf(package: string, version: string, opt: CollectOptions): string -> TestRecord {
    file => NewRecord(package, version, file, opt)
  }

  /**
   * `collect_tests()`: one list per directory under the packages root, each
   * the records of that package's collected files in collection order.
   */
  method CollectTests(root: map<string, Node>, versions: string -> Option<string>, opt: CollectOptions)
    returns (tests: map<string, seq<TestRecord>>)
    ensures tests.Keys == set p | p in root && root[p].DirNode?
    ensures forall p :: p in tests ==>
              root[p].DirNode? && tests[p] == PackageTests(p, root[p].listing, versions, opt)
  {
    var packages := set p | p in root && root[p].DirNode?;
    tests := map[];
    var todo := packages;
    while todo != {}
      invariant todo <= packages
      invariant tests.Keys == packages - todo
      invariant forall p :: p in tests ==>
                  root[p].DirNode? && tests[p] == PackageTests(p, root[p].listing, versions, opt)
      decreases todo
    {
      var package :| package in todo;
      var list := PackageList(package, VersionOf(package, versions), CollectFiles(root[package].listing), opt);
      tests := tests[package := list];
      todo := todo - {package};
    }
  }

  /** The records of one package, appended one collected file at a time. */
  method PackageList(package: string, version: string, files: seq<string>, opt: CollectOptions)
    returns (list: seq<TestRecord>)
    ensures list == Records(package, version, files, opt)
  {
    var record := RecordOf(package, version, opt);
    list := [];
    for i := 0 to |files|
      invariant list == MapSeq(files[..i], record)
    {
      MapSeqSnoc(files, record, i);
      list := list + [record(files[i])];
    }
    assert files[..|files|] == files;
  }



}
