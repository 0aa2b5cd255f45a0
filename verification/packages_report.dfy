/**
 * The reporting side of `testr/packages.py`: the framed summaries of
 * `box_output`, the status of a JUnit XML test case, the relative paths the
 * report records, and `write_log`'s aggregation of test records and XML
 * suites into the suites of `all_tests.json`.
 */
module PackagesReport {
  import opened Common
  import opened Packages

  // ---------------------------------------------------------------------
  // box_output

  function Repeat(c: char, n: nat): (r: string)
    ensures |r| == n && forall i :: 0 <= i < n ==> r[i] == c
  {
    seq(n, i => c)
  }

  function MaxLen(lines: seq<string>): (m: nat)
    requires lines != []
    ensures forall i :: 0 <= i < |lines| ==> |lines[i]| <= m
    ensures exists i :: 0 <= i < |lines| && |lines[i]| == m
    decreases |lines|
  {
    if |lines| == 1 then |lines[0]|
    else
      var rest := MaxLen(lines[1..]);
      assert forall i :: 1 <= i < |lines| ==> lines[i] == lines[1..][i - 1];
      if |lines[0]| >= rest then |lines[0]| else rest
  }

  /** `'{:Ns}'.format(s)`: left-aligned, padded with spaces to `n`, never truncated. */
  function PadRight(s: string, n: nat): (r: string)
    ensures |r| == if |s| >= n then |s| else n
    ensures r[..|s|] == s
    ensures forall i :: |s| <= i < |r| ==> r[i] == ' '
  {
    if |s| >= n then s else s + Repeat(' ', n - |s|)
  }

  /** `max(min_width, 8 + max(len(x) for x in lines))`. */
  function BoxWidth(lines: seq<string>, minWidth: nat): nat
    requires lines != []
  {
    var w := 8 + MaxLen(lines);
    if minWidth > w then minWidth else w
  }

  function Framed(line: string, width: nat): string
    requires width >= 8
  {
    "*** " + PadRight(line, width - 8) + " ***"
  }

  /**
   * The lines `box_output(lines, min_width)` logs: a bar of stars, each line
   * framed, another bar and an empty line. `max` of no lengths raises
   * ValueError.
   */
  function BoxOutput(lines: seq<string>, minWidth: nat): (r: Result<seq<string>>)
    ensures r.Err? <==> lines == []
    ensures r.Err? ==> r.error.ValueError?
    ensures r.Ok? ==> |r.value| == |lines| + 3 && r.value[|r.value| - 1] == ""
  {
    if lines == [] then Err(ValueError("max() arg is an empty sequence"))
    else
      var width := BoxWidth(lines, minWidth);
      var bar := Repeat('*', width);
      Ok([bar] + seq(|lines|, i requires 0 <= i < |lines| => Framed(lines[i], width)) + [bar, ""])
  }

  /**
   * The box is a rectangle at least `min_width` wide and just wide enough for
   * the longest line, and each framed line shows its line in full.
   */
  lemma BoxIsRectangular(lines: seq<string>, minWidth: nat)
    requires lines != []
    ensures var out := BoxOutput(lines, minWidth).value;
            var w := BoxWidth(lines, minWidth);
      && w >= minWidth
      && (w == minWidth || exists i :: 0 <= i < |lines| && |lines[i]| + 8 == w)
      && (forall k :: 0 <= k < |out| - 1 ==> |out[k]| == w)
      && (forall i :: 0 <= i < |lines| ==> out[i + 1][4..4 + |lines[i]|] == lines[i])
  {
    var w := BoxWidth(lines, minWidth);
    var m := MaxLen(lines);
    var j :| 0 <= j < |lines| && |lines[j]| == m;
    assert w == minWidth || |lines[j]| + 8 == w;
    var bar := Repeat('*', w);
    var framed := seq(|lines|, i requires 0 <= i < |lines| => Framed(lines[i], w));
    assert BoxOutput(lines, minWidth).value == [bar] + framed + [bar, ""];
    BoxRows(lines, w, bar, framed);
  }

  lemma BoxRows(lines: seq<string>, w: nat, bar: string, framed: seq<string>)
    requires w >= 8 && |bar| == w
    requires forall i :: 0 <= i < |lines| ==> |lines[i]| + 8 <= w
    requires |framed| == |lines| && forall i :: 0 <= i < |lines| ==> framed[i] == Framed(lines[i], w)
    ensures var out := [bar] + framed + [bar, ""];
      && (forall k :: 0 <= k < |out| - 1 ==> |out[k]| == w)
      && (forall i :: 0 <= i < |lines| ==> out[i + 1][4..4 + |lines[i]|] == lines[i])
  {
    var out := [bar] + framed + [bar, ""];
    forall i | 0 <= i < |lines|
      ensures |framed[i]| == w && framed[i][4..4 + |lines[i]|] == lines[i]
    {
      FramedLine(lines[i], w);
    }
    assert forall i :: 0 <= i < |lines| ==> out[i + 1] == framed[i];
  }

  lemma FramedLine(line: string, w: nat)
    requires w >= 8 + |line|
    ensures |Framed(line, w)| == w && Framed(line, w)[4..4 + |line|] == line
  {
    var p := PadRight(line, w - 8);
    assert Framed(line, w)[4..4 + |line|] == p[..|line|];
  }

  // ---------------------------------------------------------------------
  // _parse_xml_testcase: the status of a JUnit XML test case

  /** `{'failure': 'fail', 'error': 'error', 'skipped': 'skipped'}`. */
  function XmlStatusName(k: string): string {
    if k == "failure" then "fail" else k
  }

  /** The status of the first key present, 'pass' when none is. */
  function FirstPresent(keys: seq<string>, present: set<string>): string
    decreases |keys|
  {
    if keys == [] then "pass"
    else if keys[0] in present then XmlStatusName(keys[0])
    else FirstPresent(keys[1..], present)
  }

  /**
   * The status of a test case whose child elements are `present`: a failure
   * wins over an error, which wins over a skip.
   */
  function XmlCaseStatus(present: set<string>): (s: string)
    ensures s == "fail" <==> "failure" in present
    ensures s == "error" <==> "failure" !in present && "error" in present
    ensures s == "skipped" <==> "failure" !in present && "error" !in present && "skipped" in present
    ensures s == "pass" <==> "failure" !in present && "error" !in present && "skipped" !in present
  {
    FirstPresent(["failure", "error", "skipped"], present)
  }

  // ---------------------------------------------------------------------
  // _rel_path_if_descendant

  /** `os.path.realpath` (symbolic links resolved) and `os.path.exists`. */
  datatype FileSystem = FileSystem(realpath: string -> string, pathExists: string -> bool)

  /** The path recorded for `path` before the existence check: relative when it is under `root`. */
  function RelOrSelf(path: string, realRoot: string, realPath: string): string {
    if realPath == realRoot then "."
    else if StartsWith(realPath, realRoot + "/") then realPath[|realRoot| + 1..]
    else path
  }

  /**
   * `_rel_path_if_descendant(path, root)`: the path relative to `root` when it
   * resolves to `root` or below it, the path as given otherwise, and None when
   * the result, joined to the resolved root, does not exist.
   */
  function RelPathIfDescendant(path: string, root: string, fs: FileSystem): (r: Option<string>)
    ensures var rr := fs.realpath(root); var rp := fs.realpath(path);
      && (r.Some? <==> fs.pathExists(PathJoin(rr, RelOrSelf(path, rr, rp))))
      && (r.Some? && rp == rr ==> r.value == ".")
      && (r.Some? && rp != rr && StartsWith(rp, rr + "/") ==> rr + "/" + r.value == rp)
      && (r.Some? && rp != rr && !StartsWith(rp, rr + "/") ==> r.value == path)
  {
    var rr := fs.realpath(root);
    var rp := fs.realpath(path);
    var p := RelOrSelf(path, rr, rp);
    assert rp != rr && StartsWith(rp, rr + "/") ==> rr + "/" + p == rp by {
      if rp != rr && StartsWith(rp, rr + "/") {
        assert rp == rp[..|rr| + 1] + rp[|rr| + 1..];
      }
    }
    if fs.pathExists(PathJoin(rr, p)) then Some(p) else None
  }

  /**
   * For a path strictly below the root, joining the relative result back to
   * the root gives the resolved path: the existence check is made on the
   * path itself.
   */
  lemma RelPathJoinsBack(path: string, root: string, fs: FileSystem)
    requires var rr := fs.realpath(root); var rp := fs.realpath(path);
      rr != [] && !EndsWith(rr, "/") && rp != rr && StartsWith(rp, rr + "/")
      && !StartsWith(rp[|rr| + 1..], "/")
    ensures var rp := fs.realpath(path);
      RelPathIfDescendant(path, root, fs).Some? <==> fs.pathExists(rp)
  {
    var rr := fs.realpath(root);
    var rp := fs.realpath(path);
    var p := rp[|rr| + 1..];
    assert RelOrSelf(path, rr, rp) == p;
    assert rr + "/" + p == rp by {
      assert rp == rp[..|rr| + 1] + p;
    }
  }

  // ---------------------------------------------------------------------
  // write_log: one test record as a synthesised test case

  /** A test case of the report. */
  datatype Case = Case(
    name: string,
    file: string,
    timestamp: Option<string>,
    log: string,
    status: string,
    failure: Option<string>,      // the failure message
    skipped: Option<string>)      // the skip message

  /** `str(x)` of a path that may be None. */
  function StrOpt(x: Option<string>): string {
    match x
    case None => "None"
    case Some(s) => s
  }

  /** Where the report looks: the run's log directory and the filesystem. */
  datatype ReportCtx = ReportCtx(
    logDir: string,
    fs: FileSystem,
    parse: string -> seq<ParsedSuite>)    // the suites of an XML file

  /** A `<testsuite>` as parsed from a JUnit XML file. */
  datatype ParsedSuite = ParsedSuite(name: string, cases: seq<Case>)

  function TestPath(t: TestRecord): string { PathJoin(t.outDir, t.file) }

  function TestFile(t: TestRecord, ctx: ReportCtx): Option<string> {
    RelPathIfDescendant(TestPath(t), ctx.logDir, ctx.fs)
  }

  function LogFile(t: TestRecord, ctx: ReportCtx): Option<string> {
    RelPathIfDescendant(WithSuffix(TestPath(t), ".log"), ctx.logDir, ctx.fs)
  }

  /** The lower-cased status text, `test['status'].lower()`. */
  function StatusKey(s: Status): string {
    match s
    case Pass => "pass"
    case Fail => "fail"
    case Skipped => "----"
    case NotRun => "not run"
  }

  /** `StatusKey` is the lower-cased status text of every status. */
  lemma StatusKeys(s: Status)
    ensures StatusKey(s) == Lower(StatusText(s))
  {
    match s
    case Pass => assert Lower("pass") == "pass";
    case Fail => assert Lower("FAIL") == "fail";
    case Skipped => assert Lower("----") == "----";
    case NotRun => assert Lower("not run") == "not run";
  }

  /** The fields every synthesised case shares: name, file paths and start time. */
  function BaseCase(t: TestRecord, ctx: ReportCtx): (c: Case)
    ensures c.name == t.file && c.timestamp == t.tStart && c.failure.None? && c.skipped.None?
  {
    Case(t.file, StrOpt(TestFile(t, ctx)), t.tStart, StrOpt(LogFile(t, ctx)), "", None, None)
  }

  /**
   * The case `write_log` synthesises for a test without an XML report: the
   * lower-cased status is mapped through `{'pass', 'fail', '----'}` (so a
   * test still 'not run' raises KeyError), and failed and skipped tests get
   * a fixed message.
   */
  function SynthCase(t: TestRecord, ctx: ReportCtx): (r: Result<Case>)
    ensures r.Err? <==> t.status == NotRun
    ensures r.Err? ==> r.error == KeyError("not run")
    ensures r.Ok? ==> r.value.name == t.file && r.value.timestamp == t.tStart
    ensures t.status == Pass ==> r.Ok? && r.value.status == "pass" && r.value.failure.None? && r.value.skipped.None?
    ensures t.status == Fail ==> r.Ok? && r.value.status == "fail"
                                 && r.value.failure == Some(t.file + " failed") && r.value.skipped.None?
    ensures t.status == Skipped ==> r.Ok? && r.value.status == "skipped"
                                    && r.value.failure.None? && r.value.skipped == Some(t.file + " skipped")
  {
    var key := StatusKey(t.status);
    assert (key == "pass" <==> t.status == Pass) && (key == "fail" <==> t.status == Fail)
        && (key == "----" <==> t.status == Skipped) by {
      assert "pass"[0] == 'p' && "fail"[0] == 'f' && "----"[0] == '-' && "not run"[0] == 'n';
    }
    var base := BaseCase(t, ctx);
    if key == "pass" then Ok(base.(status := "pass"))
    else if key == "fail" then Ok(base.(status := "fail", failure := Some(t.file + " failed")))
    else if key == "----" then Ok(base.(status := "skipped", skipped := Some(t.file + " skipped")))
    else Err(KeyError(key))
  }

  // ---------------------------------------------------------------------
  // write_log: the suites of one package

  /** The properties a suite records for the test it stands for. */
  datatype Props = Props(
    package: string,
    packageVersion: string,
    tStart: Option<string>,
    tStop: Option<string>,
    regressDir: Option<string>,
    outDir: Option<string>)

  /** A test suite of the report. */
  datatype Suite = Suite(
    name: string,
    package: string,
    timestamp: Option<string>,
    file: Option<string>,
    log: Option<string>,
    cases: seq<Case>,
    properties: Props)

  function TestProps(t: TestRecord, ctx: ReportCtx): Props {
    Props(t.package, t.packageVersion, t.tStart, t.tStop,
          RelPathIfDescendant(t.regressDir, ctx.logDir, ctx.fs),
          RelPathIfDescendant(t.outDir, ctx.logDir, ctx.fs))
  }

  /** The suites of the test's XML report, None when it left no report under the log directory. */
  function XmlSuitesOf(t: TestRecord, ctx: ReportCtx): Option<seq<ParsedSuite>> {
    var x := RelPathIfDescendant(WithSuffix(TestPath(t), ".xml"), ctx.logDir, ctx.fs);
    if x.Some? && x.value != "" && ctx.fs.pathExists(PathJoin(ctx.logDir, x.value))
    then Some(ctx.parse(PathJoin(ctx.logDir, x.value)))
    else None
  }

  /** An XML suite renamed `<package>-<name>` and stamped with the test's file, log and properties. */
  function Relabel(package: string, parsed: seq<ParsedSuite>, t: TestRecord, ctx: ReportCtx): (r: seq<Suite>)
    ensures |r| == |parsed|
    ensures forall i :: 0 <= i < |r| ==>
              r[i].name == package + "-" + parsed[i].name && r[i].cases == parsed[i].cases
  {
    seq(|parsed|, i requires 0 <= i < |parsed| =>
      Suite(package + "-" + parsed[i].name, t.package, t.tStart, TestFile(t, ctx), LogFile(t, ctx),
            parsed[i].cases, TestProps(t, ctx)))
  }

  /** `top_testsuite` as created for the first test without an XML report. */
  function NewTop(package: string, t: TestRecord, ctx: ReportCtx): Suite {
    Suite(package + "-tests", package, t.tStart, None, None, [], TestProps(t, ctx))
  }

  /** `package_test_suites` and `top_testsuite` as the loop over a package's tests builds them. */
  datatype Acc = Acc(suites: seq<Suite>, top: Option<Suite>)

  function AccStep(package: string, acc: Acc, t: TestRecord, ctx: ReportCtx): Result<Acc> {
    match XmlSuitesOf(t, ctx)
    case Some(parsed) => Ok(acc.(suites := acc.suites + Relabel(package, parsed, t, ctx)))
    case None =>
      var top := if acc.top.Some? then acc.top.value else NewTop(package, t, ctx);
      match SynthCase(t, ctx)
      case Err(e) => Err(e)
      case Ok(c) => Ok(acc.(top := Some(top.(cases := top.cases + [c]))))
  }

  /** The loop over one package's tests, defined on its last test. */
  function Accumulate(package: string, tests: seq<TestRecord>, ctx: ReportCtx): Result<Acc>
    decreases |tests|
  {
    if tests == [] then Ok(Acc([], None))
    else
      match Accumulate(package, tests[..|tests| - 1], ctx)
      case Err(e) => Err(e)
      case Ok(acc) => AccStep(package, acc, tests[|tests| - 1], ctx)
  }

  function Wrap(suites: seq<Suite>): (r: seq<Option<Suite>>)
    ensures |r| == |suites| && forall i :: 0 <= i < |r| ==> r[i] == Some(suites[i])
  {
    seq(|suites|, i requires 0 <= i < |suites| => Some(suites[i]))
  }

  /**
   * The end of a package, as written: with exactly one XML suite the
   * synthesised cases are appended to it (raising TypeError when there are
   * none, as `top_testsuite` is then None); otherwise `top_testsuite` is
   * appended, None included.
   */
  function CloseAsWritten(acc: Acc): Result<seq<Option<Suite>>> {
    if |acc.suites| == 1 then
      if acc.top.None? then Err(TypeError("'NoneType' object is not subscriptable"))
      else Ok([Some(acc.suites[0].(cases := acc.suites[0].cases + acc.top.value.cases))])
    else Ok(Wrap(acc.suites) + [acc.top])
  }

  /** The suites `write_log` adds for one package, as written. */
  function PackageSuitesSpec(package: string, tests: seq<TestRecord>, ctx: ReportCtx): Result<seq<Option<Suite>>> {
    match Accumulate(package, tests, ctx)
    case Err(e) => Err(e)
    case Ok(acc) => CloseAsWritten(acc)
  }

  /** The body of `write_log`'s loop for one package. */
  method PackageSuites(package: string, tests: seq<TestRecord>, ctx: ReportCtx)
    returns (r: Result<seq<Option<Suite>>>)
    ensures r == PackageSuitesSpec(package, tests, ctx)
  {
    var suites: seq<Suite> := [];
    var top: Option<Suite> := None;
    for i := 0 to |tests|
      invariant Accumulate(package, tests[..i], ctx) == Ok(Acc(suites, top))
    {
      var t := tests[i];
      assert tests[..i + 1][..i] == tests[..i] && tests[..i + 1][i] == t;
      var xml := XmlSuitesOf(t, ctx);
      if xml.Some? {
        suites := suites + Relabel(package, xml.value, t, ctx);
      } else {
        if top.None? {
          top := Some(NewTop(package, t, ctx));
        }
        var c := SynthCase(t, ctx);
        if c.Err? {
          AccumulateStopsAtError(package, tests, i + 1, ctx);
          return Err(c.error);
        }
        top := Some(top.value.(cases := top.value.cases + [c.value]));
      }
    }
    assert tests[..|tests|] == tests;
    if |suites| == 1 {
      if top.None? {
        return Err(TypeError("'NoneType' object is not subscriptable"));
      }
      r := Ok([Some(suites[0].(cases := suites[0].cases + top.value.cases))]);
    } else {
      r := Ok(Wrap(suites) + [top]);
    }
  }

  lemma AccumulateErrSticks(package: string, tests: seq<TestRecord>, ctx: ReportCtx)
    requires tests != [] && Accumulate(package, tests[..|tests| - 1], ctx).Err?
    ensures Accumulate(package, tests, ctx) == Accumulate(package, tests[..|tests| - 1], ctx)
  {
  }

  /** Once a test raises, the loop over the package raises the same error. */
  lemma {:induction false} AccumulateStopsAtError(package: string, tests: seq<TestRecord>, j: nat, ctx: ReportCtx)
    requires j <= |tests| && Accumulate(package, tests[..j], ctx).Err?
    ensures Accumulate(package, tests, ctx) == Accumulate(package, tests[..j], ctx)
    decreases |tests| - j
  {
    if j < |tests| {
      var front := tests[..|tests| - 1];
      assert front[..j] == tests[..j];
      AccumulateStopsAtError(package, front, j, ctx);
      assert Accumulate(package, front, ctx).Err?;
      AccumulateErrSticks(package, tests, ctx);
    } else {
      assert tests[..j] == tests;
    }
  }

  // ---------------------------------------------------------------------
  // What a package's suites are, stated directly

  /** The tests that left no XML report, in order. */
  function NonXmlTests(tests: seq<TestRecord>, ctx: ReportCtx): (r: seq<TestRecord>)
    ensures forall t :: t in r <==> t in tests && XmlSuitesOf(t, ctx).None?
    decreases |tests|
  {
    if tests == [] then []
    else
      var t := tests[|tests| - 1];
      assert tests == tests[..|tests| - 1] + [t];
      NonXmlTests(tests[..|tests| - 1], ctx) + (if XmlSuitesOf(t, ctx).None? then [t] else [])
  }

  /** The XML suites of all tests, in test order. */
  function AllXmlSuites(package: string, tests: seq<TestRecord>, ctx: ReportCtx): seq<Suite>
    decreases |tests|
  {
    if tests == [] then []
    else
      var t := tests[|tests| - 1];
      AllXmlSuites(package, tests[..|tests| - 1], ctx)
        + (match XmlSuitesOf(t, ctx) case Some(parsed) => Relabel(package, parsed, t, ctx) case None => [])
  }

  /** `SynthCase` of each test. */
  function SynthCases(tests: seq<TestRecord>, ctx: ReportCtx): (rs: seq<Result<Case>>)
    ensures |rs| == |tests| && forall i :: 0 <= i < |tests| ==> rs[i] == SynthCase(tests[i], ctx)
  {
    seq(|tests|, i requires 0 <= i < |tests| => SynthCase(tests[i], ctx))
  }

  /** The synthesised cases of the given tests, in order, or the first error. */
  function SynthAll(tests: seq<TestRecord>, ctx: ReportCtx): (r: Result<seq<Case>>)
    ensures r.Ok? ==> |r.value| == |tests|
    ensures r.Ok? ==> forall i :: 0 <= i < |tests| ==> SynthCase(tests[i], ctx) == Ok(r.value[i])
  {
    AllOk(SynthCases(tests, ctx))
  }

  /** `SynthAll` takes the tests one at a time. */
  lemma SynthAllSnoc(tests: seq<TestRecord>, ctx: ReportCtx)
    requires tests != []
    ensures SynthAll(tests, ctx) ==
      match SynthAll(tests[..|tests| - 1], ctx)
      case Err(e) => Err(e)
      case Ok(cs) =>
        match SynthCase(tests[|tests| - 1], ctx)
        case Err(e) => Err(e)
        case Ok(c) => Ok(cs + [c])
  {
    var rs := SynthCases(tests, ctx);
    assert rs[..|rs| - 1] == SynthCases(tests[..|tests| - 1], ctx);
  }

  /** The accumulated state, stated directly: see `AccumulateShape`. */
  function Expected(package: string, tests: seq<TestRecord>, ctx: ReportCtx): Result<Acc> {
    var nx := NonXmlTests(tests, ctx);
    match SynthAll(nx, ctx)
    case Err(e) => Err(e)
    case Ok(cases) =>
      Ok(Acc(AllXmlSuites(package, tests, ctx),
             if nx == [] then None else Some(NewTop(package, nx[0], ctx).(cases := cases))))
  }

  lemma ExpectedStepXml(package: string, tests: seq<TestRecord>, ctx: ReportCtx)
    requires tests != [] && XmlSuitesOf(tests[|tests| - 1], ctx).Some?
    ensures var pre := tests[..|tests| - 1];
      Expected(package, tests, ctx) ==
        match Expected(package, pre, ctx)
        case Err(e) => Err(e)
        case Ok(acc) => AccStep(package, acc, tests[|tests| - 1], ctx)
  {
    assert NonXmlTests(tests, ctx) == NonXmlTests(tests[..|tests| - 1], ctx);
  }

  lemma ExpectedStepPlain(package: string, tests: seq<TestRecord>, ctx: ReportCtx)
    requires tests != [] && XmlSuitesOf(tests[|tests| - 1], ctx).None?
    ensures var pre := tests[..|tests| - 1];
      Expected(package, tests, ctx) ==
        match Expected(package, pre, ctx)
        case Err(e) => Err(e)
        case Ok(acc) => AccStep(package, acc, tests[|tests| - 1], ctx)
  {
    var pre := tests[..|tests| - 1];
    var t := tests[|tests| - 1];
    var nxPre := NonXmlTests(pre, ctx);
    var nx := NonXmlTests(tests, ctx);
    assert nx == nxPre + [t];
    assert nx[..|nx| - 1] == nxPre && nx[|nx| - 1] == t;
    var xml := AllXmlSuites(package, pre, ctx);
    assert AllXmlSuites(package, tests, ctx) == xml;
    SynthAllSnoc(nx, ctx);
    match SynthAll(nxPre, ctx)
    case Err(e) =>
      assert SynthAll(nx, ctx) == Err(e);
      assert Expected(package, pre, ctx) == Err(e);
    case Ok(cs) =>
      var topPre := if nxPre == [] then None else Some(NewTop(package, nxPre[0], ctx).(cases := cs));
      assert Expected(package, pre, ctx) == Ok(Acc(xml, topPre));
      var top := if topPre.Some? then topPre.value else NewTop(package, t, ctx);
      assert top == NewTop(package, nx[0], ctx).(cases := cs) by {
        if nxPre == [] {
          assert cs == [];
        } else {
          assert nx[0] == nxPre[0];
        }
      }
      match SynthCase(t, ctx)
      case Err(e) =>
        assert SynthAll(nx, ctx) == Err(e);
      case Ok(c) =>
        assert SynthAll(nx, ctx) == Ok(cs + [c]);
        assert AccStep(package, Acc(xml, topPre), t, ctx) == Ok(Acc(xml, Some(top.(cases := cs + [c]))));
  }

  /**
   * The loop over a package's tests collects every XML suite in test order,
   * and one top suite, created for the first test without an XML report,
   * holding the synthesised cases of all such tests in test order.
   */
  lemma {:induction false} AccumulateShape(package: string, tests: seq<TestRecord>, ctx: ReportCtx)
    ensures Accumulate(package, tests, ctx) == Expected(package, tests, ctx)
    decreases |tests|
  {
    if tests != [] {
      AccumulateShape(package, tests[..|tests| - 1], ctx);
      if XmlSuitesOf(tests[|tests| - 1], ctx).Some? {
        ExpectedStepXml(package, tests, ctx);
      } else {
        ExpectedStepPlain(package, tests, ctx);
      }
    }
  }

  /**
   * With exactly one XML suite and at least one test without a report, the
   * package yields that one suite, its own cases followed by the synthesised
   * cases in test order.
   */
  lemma MergeIntoSoleXmlSuite(package: string, tests: seq<TestRecord>, ctx: ReportCtx)
    requires |AllXmlSuites(package, tests, ctx)| == 1
    requires NonXmlTests(tests, ctx) != []
    requires SynthAll(NonXmlTests(tests, ctx), ctx).Ok?
    ensures var xml := AllXmlSuites(package, tests, ctx)[0];
      PackageSuitesSpec(package, tests, ctx)
        == Ok([Some(xml.(cases := xml.cases + SynthAll(NonXmlTests(tests, ctx), ctx).value))])
  {
    AccumulateShape(package, tests, ctx);
  }

  /**
   * When every test of the package left an XML report, `top_testsuite` is
   * never created: with exactly one XML suite the merge raises TypeError,
   * otherwise None is appended after the XML suites.
   */
  lemma NoneTopWhenEveryTestHasXml(package: string, tests: seq<TestRecord>, ctx: ReportCtx)
    requires NonXmlTests(tests, ctx) == []
    ensures var xml := AllXmlSuites(package, tests, ctx);
      PackageSuitesSpec(package, tests, ctx) ==
        if |xml| == 1 then Err(TypeError("'NoneType' object is not subscriptable"))
        else Ok(Wrap(xml) + [None])
  {
    AccumulateShape(package, tests, ctx);
  }

  /** A package whose only test left an XML report with one suite makes `write_log` raise. */
  lemma SoleXmlTestRaises(package: string, t: TestRecord, p: ParsedSuite, ctx: ReportCtx)
    requires XmlSuitesOf(t, ctx) == Some([p])
    ensures PackageSuitesSpec(package, [t], ctx).Err?
    ensures PackageSuitesSpec(package, [t], ctx).error.TypeError?
  {
    assert [t][..0] == [];
    var r := Relabel(package, [p], t, ctx);
    assert [] + r == r;
    assert Accumulate(package, [t], ctx) == Ok(Acc(r, None));
  }

  // ---------------------------------------------------------------------
  // write_log: closing a package, corrected

  /** The cases of the given suites, in order. */
  function AllCases(suites: seq<Suite>): seq<Case>
    decreases |suites|
  {
    if suites == [] then []
    else AllCases(suites[..|suites| - 1]) + suites[|suites| - 1].cases
  }

  /** The end of a package with `top_testsuite` merged or appended only when it exists. */
  function CloseCorrected(acc: Acc): (r: seq<Suite>)
    ensures acc.top.None? ==> r == acc.suites
    ensures |r| == |acc.suites| + (if acc.top.Some? && |acc.suites| != 1 then 1 else 0)
  {
    match acc.top
    case None => acc.suites
    case Some(top) =>
      if |acc.suites| == 1 then [acc.suites[0].(cases := acc.suites[0].cases + top.cases)]
      else acc.suites + [top]
  }

  /** Closing a package loses no case and reorders none: the XML cases come first, then the synthesised ones. */
  lemma CloseKeepsCases(acc: Acc)
    ensures AllCases(CloseCorrected(acc)) ==
      AllCases(acc.suites) + (if acc.top.Some? then acc.top.value.cases else [])
  {
    if acc.top.Some? {
      var r := CloseCorrected(acc);
      if |acc.suites| == 1 {
        assert acc.suites[..0] == [] && r[..0] == [];
      } else {
        assert r[..|r| - 1] == acc.suites;
      }
    }
  }

  /** Where the as-written close succeeds without a None, the corrected close gives the same suites. */
  lemma CloseAgrees(acc: Acc)
    ensures CloseAsWritten(acc).Ok? && None !in CloseAsWritten(acc).value <==> acc.top.Some?
    ensures acc.top.Some? ==> CloseAsWritten(acc) == Ok(Wrap(CloseCorrected(acc)))
  {
    if acc.top.None? && |acc.suites| != 1 {
      var w := Wrap(acc.suites) + [acc.top];
      assert w[|w| - 1] == None;
    }
    if acc.top.Some? {
      var r := CloseCorrected(acc);
      if |acc.suites| == 1 {
        assert Wrap(r) == [Some(r[0])];
      } else {
        assert Wrap(r) == Wrap(acc.suites) + [acc.top];
      }
    }
  }

  /** The suites one package contributes, corrected. */
  function PackageSuitesCorrected(package: string, tests: seq<TestRecord>, ctx: ReportCtx): Result<seq<Suite>> {
    match Accumulate(package, tests, ctx)
    case Err(e) => Err(e)
    case Ok(acc) => Ok(CloseCorrected(acc))
  }

  /**
   * The corrected package raises only for a test still 'not run' that left no
   * XML report, and then with KeyError; otherwise its cases are every XML
   * suite's cases in test order followed by the synthesised cases in test order.
   */
  lemma PackageSuitesCorrectedShape(package: string, tests: seq<TestRecord>, ctx: ReportCtx)
    ensures var nx := NonXmlTests(tests, ctx);
      PackageSuitesCorrected(package, tests, ctx).Err? <==>
        exists i :: 0 <= i < |nx| && nx[i].status == NotRun
    ensures PackageSuitesCorrected(package, tests, ctx).Err? ==>
      PackageSuitesCorrected(package, tests, ctx).error == KeyError("not run")
    ensures PackageSuitesCorrected(package, tests, ctx).Ok? ==>
      && SynthAll(NonXmlTests(tests, ctx), ctx).Ok?
      && AllCases(PackageSuitesCorrected(package, tests, ctx).value) ==
           AllCases(AllXmlSuites(package, tests, ctx)) + SynthAll(NonXmlTests(tests, ctx), ctx).value
  {
    var nx := NonXmlTests(tests, ctx);
    SynthAllError(nx, ctx);
    if SynthAll(nx, ctx).Err? {
      CorrectedRaises(package, tests, ctx);
    } else {
      CorrectedCases(package, tests, ctx);
    }
  }

  lemma CorrectedRaises(package: string, tests: seq<TestRecord>, ctx: ReportCtx)
    requires SynthAll(NonXmlTests(tests, ctx), ctx).Err?
    ensures PackageSuitesCorrected(package, tests, ctx) == Err(KeyError("not run"))
  {
    AccumulateShape(package, tests, ctx);
    var nx := NonXmlTests(tests, ctx);
    SynthAllError(nx, ctx);
    assert Accumulate(package, tests, ctx) == Err(SynthAll(nx, ctx).error);
  }

  lemma CorrectedCases(package: string, tests: seq<TestRecord>, ctx: ReportCtx)
    requires SynthAll(NonXmlTests(tests, ctx), ctx).Ok?
    ensures PackageSuitesCorrected(package, tests, ctx).Ok?
    ensures AllCases(PackageSuitesCorrected(package, tests, ctx).value) ==
        AllCases(AllXmlSuites(package, tests, ctx)) + SynthAll(NonXmlTests(tests, ctx), ctx).value
  {
    AccumulateShape(package, tests, ctx);
    var nx := NonXmlTests(tests, ctx);
    var s := SynthAll(nx, ctx);
    var top := if nx == [] then None else Some(NewTop(package, nx[0], ctx).(cases := s.value));
    var acc := Acc(AllXmlSuites(package, tests, ctx), top);
    assert Accumulate(package, tests, ctx) == Ok(acc);
    CloseKeepsCases(acc);
    assert nx == [] ==> s.value == [];
  }

  /** The error of `SynthAll` is the KeyError of the first test still 'not run'. */
  lemma SynthAllError(tests: seq<TestRecord>, ctx: ReportCtx)
    ensures SynthAll(tests, ctx).Err? <==> exists i :: 0 <= i < |tests| && tests[i].status == NotRun
    ensures SynthAll(tests, ctx).Err? ==> SynthAll(tests, ctx).error == KeyError("not run")
  {
    var rs := SynthCases(tests, ctx);
    var r := AllOk(rs);
    assert SynthAll(tests, ctx) == r;
    if r.Err? {
      var i :| 0 <= i < |rs| && rs[i] == Err(r.error);
      assert SynthCase(tests[i], ctx) == Err(r.error);
    } else {
      forall i | 0 <= i < |tests|
        ensures tests[i].status != NotRun
      {
        assert SynthCase(tests[i], ctx).Ok?;
      }
    }
  }

  /** Where the as-written package yields no None, the corrected one yields the same suites. */
  lemma PackageSuitesAgree(package: string, tests: seq<TestRecord>, ctx: ReportCtx)
    requires PackageSuitesSpec(package, tests, ctx).Ok?
    requires None !in PackageSuitesSpec(package, tests, ctx).value
    ensures PackageSuitesCorrected(package, tests, ctx).Ok?
    ensures PackageSuitesSpec(package, tests, ctx).value == Wrap(PackageSuitesCorrected(package, tests, ctx).value)
  {
    CloseAgrees(Accumulate(package, tests, ctx).value);
  }

  // ---------------------------------------------------------------------
  // write_log: the run's time window

  /**
   * Python's `min` over a non-empty list of optional timestamps: a single
   * item is returned as it is, and comparing None with anything raises
   * TypeError.
   */
  function MinOpt(xs: seq<Option<string>>): (r: Result<Option<string>>)
    requires xs != []
    ensures |xs| == 1 ==> r == Ok(xs[0])
    ensures r.Err? <==> |xs| >= 2 && exists i :: 0 <= i < |xs| && xs[i].None?
    ensures r.Ok? && |xs| >= 2 ==> r.value.Some?
    decreases |xs|
  {
    if |xs| == 1 then Ok(xs[0])
    else
      var pre := xs[..|xs| - 1];
      var x := xs[|xs| - 1];
      assert forall i :: 0 <= i < |pre| ==> pre[i] == xs[i];
      match MinOpt(pre)
      case Err(e) => Err(e)
      case Ok(m) =>
        if m.None? || x.None? then Err(TypeError("'<' not supported with 'NoneType'"))
        else Ok(Some(if Below(x.value, m.value) then x.value else m.value))
  }

  /** Python's `max`, likewise. */
  function MaxOpt(xs: seq<Option<string>>): (r: Result<Option<string>>)
    requires xs != []
    ensures |xs| == 1 ==> r == Ok(xs[0])
    ensures r.Err? <==> |xs| >= 2 && exists i :: 0 <= i < |xs| && xs[i].None?
    ensures r.Ok? && |xs| >= 2 ==> r.value.Some?
    decreases |xs|
  {
    if |xs| == 1 then Ok(xs[0])
    else
      var pre := xs[..|xs| - 1];
      var x := xs[|xs| - 1];
      assert forall i :: 0 <= i < |pre| ==> pre[i] == xs[i];
      match MaxOpt(pre)
      case Err(e) => Err(e)
      case Ok(m) =>
        if m.None? || x.None? then Err(TypeError("'>' not supported with 'NoneType'"))
        else Ok(Some(if Below(m.value, x.value) then x.value else m.value))
  }

  /** The minimum is one of the items, and no item is below it. */
  lemma {:induction false} MinOptIsLeast(xs: seq<Option<string>>)
    requires xs != [] && MinOpt(xs).Ok? && MinOpt(xs).value.Some?
    ensures exists i :: 0 <= i < |xs| && xs[i] == MinOpt(xs).value
    ensures forall i :: 0 <= i < |xs| && xs[i].Some? ==> !Below(xs[i].value, MinOpt(xs).value.value)
    decreases |xs|
  {
    if |xs| == 1 {
      BelowIrreflexive(xs[0].value);
    } else {
      var pre := xs[..|xs| - 1];
      var x := xs[|xs| - 1].value;
      MinOptIsLeast(pre);
      var m := MinOpt(pre).value.value;
      var j :| 0 <= j < |pre| && pre[j] == Some(m);
      assert xs[j] == Some(m);
      forall i | 0 <= i < |xs| && xs[i].Some?
        ensures !Below(xs[i].value, MinOpt(xs).value.value)
      {
        if i < |xs| - 1 {
          assert pre[i] == xs[i];
          if Below(x, m) {
            BelowAsymmetric(x, m);
            AtLeastTransitive(x, m, xs[i].value);
          }
        } else {
          BelowIrreflexive(x);
          if !Below(x, m) {
            BelowTotal(x, m);
            if m != x { BelowAsymmetric(m, x); }
          }
        }
      }
    }
  }

  /** The maximum is one of the items, and no item is above it. */
  lemma {:induction false} MaxOptIsGreatest(xs: seq<Option<string>>)
    requires xs != [] && MaxOpt(xs).Ok? && MaxOpt(xs).value.Some?
    ensures exists i :: 0 <= i < |xs| && xs[i] == MaxOpt(xs).value
    ensures forall i :: 0 <= i < |xs| && xs[i].Some? ==> !Below(MaxOpt(xs).value.value, xs[i].value)
    decreases |xs|
  {
    if |xs| == 1 {
      BelowIrreflexive(xs[0].value);
    } else {
      var pre := xs[..|xs| - 1];
      var x := xs[|xs| - 1].value;
      MaxOptIsGreatest(pre);
      var m := MaxOpt(pre).value.value;
      var j :| 0 <= j < |pre| && pre[j] == Some(m);
      assert xs[j] == Some(m);
      forall i | 0 <= i < |xs| && xs[i].Some?
        ensures !Below(MaxOpt(xs).value.value, xs[i].value)
      {
        if i < |xs| - 1 {
          assert pre[i] == xs[i];
          if Below(m, x) {
            BelowAsymmetric(m, x);
            AtLeastTransitive(xs[i].value, m, x);
          }
        } else {
          BelowIrreflexive(x);
          if !Below(m, x) {
            BelowTotal(x, m);
            if m != x { BelowAsymmetric(x, m); }
          }
        }
      }
    }
  }

  /** The run-level start and stop stamps of the report. */
  datatype RunWindow = RunWindow(tStart: Option<string>, tStop: Option<string>)

  /** The suites whose test was started, in order. */
  function Started(suites: seq<Suite>): (r: seq<Suite>)
    ensures forall s :: s in r <==> s in suites && s.properties.tStart.Some?
    decreases |suites|
  {
    if suites == [] then []
    else
      var s := suites[|suites| - 1];
      assert suites == suites[..|suites| - 1] + [s];
      Started(suites[..|suites| - 1]) + (if s.properties.tStart.Some? then [s] else [])
  }

  function Starts(suites: seq<Suite>): (r: seq<Option<string>>)
    ensures |r| == |suites| && forall i :: 0 <= i < |r| ==> r[i] == suites[i].properties.tStart
  {
    seq(|suites|, i requires 0 <= i < |suites| => suites[i].properties.tStart)
  }

  function Stops(suites: seq<Suite>): (r: seq<Option<string>>)
    ensures |r| == |suites| && forall i :: 0 <= i < |r| ==> r[i] == suites[i].properties.tStop
  {
    seq(|suites|, i requires 0 <= i < |suites| => suites[i].properties.tStop)
  }

  /** The run window as written: the earliest start, and the earliest stop too. */
  function RunWindowAsWritten(suites: seq<Suite>): Result<RunWindow> {
    var st := Started(suites);
    if st == [] then Ok(RunWindow(None, None))
    else
      match MinOpt(Stops(st))
      case Err(e) => Err(e)
      case Ok(stop) =>
        match MinOpt(Starts(st))
        case Err(e) => Err(e)
        case Ok(start) => Ok(RunWindow(start, stop))
  }

  /** The run window with the latest stop. */
  function RunWindowCorrected(suites: seq<Suite>): Result<RunWindow> {
    var st := Started(suites);
    if st == [] then Ok(RunWindow(None, None))
    else
      match MaxOpt(Stops(st))
      case Err(e) => Err(e)
      case Ok(stop) =>
        match MinOpt(Starts(st))
        case Err(e) => Err(e)
        case Ok(start) => Ok(RunWindow(start, stop))
  }

  /** As written, the run's stop is the earliest stop of any started suite. */
  lemma RunStopIsEarliestStop(suites: seq<Suite>, s: Suite)
    requires RunWindowAsWritten(suites).Ok? && RunWindowAsWritten(suites).value.tStop.Some?
    requires s in suites && s.properties.tStart.Some? && s.properties.tStop.Some?
    ensures !Below(s.properties.tStop.value, RunWindowAsWritten(suites).value.tStop.value)
  {
    var st := Started(suites);
    var i :| 0 <= i < |st| && st[i] == s;
    assert Stops(st)[i] == s.properties.tStop;
    MinOptIsLeast(Stops(st));
  }

  /** A started suite with the given stamps. */
  function StampedSuite(start: string, stop: string): Suite {
    Suite("pkg-tests", "pkg", Some(start), None, None, [],
          Props("pkg", "1.0", Some(start), Some(stop), None, None))
  }

  /**
   * Two tests run one after the other: the first from "1" to "2", the
   * second from "3" to "4". As written the run stops at "2", before the
   * second test started.
   */
  lemma RunStopBeforeLastStart()
    ensures var suites := [StampedSuite("1", "2"), StampedSuite("3", "4")];
      && RunWindowAsWritten(suites) == Ok(RunWindow(Some("1"), Some("2")))
      && Below("2", "3")
  {
    assert !Below("4", "2") && !Below("3", "1") && Below("2", "3") by {
      assert "4"[0] > "2"[0] && "3"[0] > "1"[0] && "2"[0] < "3"[0];
    }
    RunWindowOfTwo(StampedSuite("1", "2"), StampedSuite("3", "4"));
  }

  /** The run window as written of two started suites that have stopped. */
  lemma RunWindowOfTwo(s1: Suite, s2: Suite)
    requires s1.properties.tStart.Some? && s1.properties.tStop.Some?
    requires s2.properties.tStart.Some? && s2.properties.tStop.Some?
    ensures var a1, a2 := s1.properties.tStart.value, s2.properties.tStart.value;
            var z1, z2 := s1.properties.tStop.value, s2.properties.tStop.value;
      RunWindowAsWritten([s1, s2]) ==
        Ok(RunWindow(Some(if Below(a2, a1) then a2 else a1), Some(if Below(z2, z1) then z2 else z1)))
  {
    var suites := [s1, s2];
    var a1, a2 := s1.properties.tStart.value, s2.properties.tStart.value;
    var z1, z2 := s1.properties.tStop.value, s2.properties.tStop.value;
    StartedTwo(s1, s2);
    assert MinOpt(Stops(suites)) == Ok(Some(if Below(z2, z1) then z2 else z1)) by {
      assert Stops(suites) == [Some(z1), Some(z2)];
      MinOptPair(z1, z2);
    }
    assert MinOpt(Starts(suites)) == Ok(Some(if Below(a2, a1) then a2 else a1)) by {
      assert Starts(suites) == [Some(a1), Some(a2)];
      MinOptPair(a1, a2);
    }
  }

  lemma StartedTwo(s1: Suite, s2: Suite)
    requires s1.properties.tStart.Some? && s2.properties.tStart.Some?
    ensures Started([s1, s2]) == [s1, s2]
  {
    assert Started([s1]) == [s1] by {
      assert [s1][..0] == [];
    }
    assert [s1, s2][..1] == [s1];
  }

  lemma MinOptPair(a: string, b: string)
    ensures MinOpt([Some(a), Some(b)]) == Ok(Some(if Below(b, a) then b else a))
  {
    assert [Some(a), Some(b)][..1] == [Some(a)];
  }

  /**
   * Corrected, the run window covers every started test that has stopped:
   * it starts no later than any of them and stops no earlier.
   */
  lemma RunWindowCovers(suites: seq<Suite>)
    requires forall s :: s in suites && s.properties.tStart.Some? ==> s.properties.tStop.Some?
    ensures RunWindowCorrected(suites).Ok?
    ensures var w := RunWindowCorrected(suites).value;
      forall s :: s in suites && s.properties.tStart.Some? ==>
        && w.tStart.Some? && w.tStop.Some?
        && !Below(s.properties.tStart.value, w.tStart.value)
        && !Below(w.tStop.value, s.properties.tStop.value)
  {
    var st := Started(suites);
    if st != [] {
      var starts := Starts(st);
      var stops := Stops(st);
      assert forall i :: 0 <= i < |st| ==> st[i] in suites;
      assert forall i :: 0 <= i < |st| ==> starts[i].Some? && stops[i].Some?;
      MinOptIsLeast(starts);
      MaxOptIsGreatest(stops);
      forall s | s in suites && s.properties.tStart.Some?
        ensures !Below(s.properties.tStart.value, MinOpt(starts).value.value)
        ensures !Below(MaxOpt(stops).value.value, s.properties.tStop.value)
      {
        var i :| 0 <= i < |st| && st[i] == s;
        assert starts[i] == s.properties.tStart && stops[i] == s.properties.tStop;
      }
    }
  }

  // ---------------------------------------------------------------------
  // write_log: the whole report

  /** What `write_log` writes: the run window (absent without suites) and the suites. */
  datatype Report = Report(runWindow: Option<RunWindow>, suites: seq<Suite>)

  /** The suites of the given packages in order, as written, or the first error. */
  function AllPackagesSuites(keys: seq<string>, tests: map<string, seq<TestRecord>>, ctx: ReportCtx)
    : Result<seq<Option<Suite>>>
    requires forall i :: 0 <= i < |keys| ==> keys[i] in tests
    decreases |keys|
  {
    if keys == [] then Ok([])
    else
      var p := keys[|keys| - 1];
      match AllPackagesSuites(keys[..|keys| - 1], tests, ctx)
      case Err(e) => Err(e)
      case Ok(all) =>
        match PackageSuitesSpec(p, tests[p], ctx)
        case Err(e) => Err(e)
        case Ok(more) => Ok(all + more)
  }

  predicate NoNone(xs: seq<Option<Suite>>) {
    forall i :: 0 <= i < |xs| ==> xs[i].Some?
  }

  function Unwrap(xs: seq<Option<Suite>>): (r: seq<Suite>)
    requires NoNone(xs)
    ensures Wrap(r) == xs
  {
    seq(|xs|, i requires 0 <= i < |xs| => xs[i].value)
  }

  /**
   * `write_log` as written: packages in sorted order; reading the
   * properties of a None suite raises TypeError, and so may `min` over the
   * stops.
   */
  function WriteLogSpec(tests: map<string, seq<TestRecord>>, ctx: ReportCtx): (r: Result<Report>)
    ensures r.Ok? ==> (r.value.runWindow.Some? <==> r.value.suites != [])
    ensures tests == map[] ==> r == Ok(Report(None, []))
  {
    match AllPackagesSuites(SortedKeys(tests.Keys), tests, ctx)
    case Err(e) => Err(e)
    case Ok(all) =>
      if all == [] then Ok(Report(None, []))
      else if !NoNone(all) then Err(TypeError("'NoneType' object is not subscriptable"))
      else
        match RunWindowAsWritten(Unwrap(all))
        case Err(e) => Err(e)
        case Ok(w) => Ok(Report(Some(w), Unwrap(all)))
  }

  /** Once a package raises, the rest of the packages do not matter. */
  lemma {:induction false} AllPackagesStopAtError(keys: seq<string>, tests: map<string, seq<TestRecord>>,
                                                 j: nat, ctx: ReportCtx)
    requires forall i :: 0 <= i < |keys| ==> keys[i] in tests
    requires j <= |keys| && AllPackagesSuites(keys[..j], tests, ctx).Err?
    ensures AllPackagesSuites(keys, tests, ctx) == AllPackagesSuites(keys[..j], tests, ctx)
    decreases |keys| - j
  {
    if j < |keys| {
      var n := |keys|;
      assert keys[..n - 1][..j] == keys[..j];
      AllPackagesStopAtError(keys[..n - 1], tests, j, ctx);
    } else {
      assert keys[..j] == keys;
    }
  }

  /** `write_log(tests)`. */
  method WriteLog(tests: map<string, seq<TestRecord>>, ctx: ReportCtx) returns (r: Result<Report>)
    ensures r == WriteLogSpec(tests, ctx)
  {
    var found := CollectSuites(SortedKeys(tests.Keys), tests, ctx);
    if found.Err? {
      return Err(found.error);
    }
    var all := found.value;
    if all == [] {
      return Ok(Report(None, []));
    }
    if !NoNone(all) {
      return Err(TypeError("'NoneType' object is not subscriptable"));
    }
    var suites := Unwrap(all);
    var w := RunWindowAsWritten(suites);
    if w.Err? {
      return Err(w.error);
    }
    r := Ok(Report(Some(w.value), suites));
  }

  /** The loop of `write_log` over the packages, stopping at the first that raises. */
  method CollectSuites(keys: seq<string>, tests: map<string, seq<TestRecord>>, ctx: ReportCtx)
    returns (r: Result<seq<Option<Suite>>>)
    requires forall i :: 0 <= i < |keys| ==> keys[i] in tests
    ensures r == AllPackagesSuites(keys, tests, ctx)
  {
    var all: seq<Option<Suite>> := [];
    for i := 0 to |keys|
      invariant AllPackagesSuites(keys[..i], tests, ctx) == Ok(all)
    {
      assert keys[..i + 1][..i] == keys[..i] && keys[..i + 1][i] == keys[i];
      var more := PackageSuites(keys[i], tests[keys[i]], ctx);
      if more.Err? {
        AllPackagesStopAtError(keys, tests, i + 1, ctx);
        return Err(more.error);
      }
      all := all + more.value;
    }
    assert keys[..|keys|] == keys;
    r := Ok(all);
  }

  /** The suites of the given packages in order, corrected, or the first error. */
  function AllPackagesSuitesCorrected(keys: seq<string>, tests: map<string, seq<TestRecord>>, ctx: ReportCtx)
    : Result<seq<Suite>>
    requires forall i :: 0 <= i < |keys| ==> keys[i] in tests
    decreases |keys|
  {
    if keys == [] then Ok([])
    else
      var p := keys[|keys| - 1];
      match AllPackagesSuitesCorrected(keys[..|keys| - 1], tests, ctx)
      case Err(e) => Err(e)
      case Ok(all) =>
        match PackageSuitesCorrected(p, tests[p], ctx)
        case Err(e) => Err(e)
        case Ok(more) => Ok(all + more)
  }

  /** `write_log` with both corrections: no None suite, and the latest stop. */
  function WriteLogCorrected(tests: map<string, seq<TestRecord>>, ctx: ReportCtx): Result<Report> {
    match AllPackagesSuitesCorrected(SortedKeys(tests.Keys), tests, ctx)
    case Err(e) => Err(e)
    case Ok(all) =>
      if all == [] then Ok(Report(None, []))
      else
        match RunWindowCorrected(all)
        case Err(e) => Err(e)
        case Ok(w) => Ok(Report(Some(w), all))
  }

  /** A package directory holding no test scripts. */
  lemma EmptyPackageBreaksLog(ctx: ReportCtx)
    ensures WriteLogSpec(map["pkg" := []], ctx).Err?
    ensures WriteLogSpec(map["pkg" := []], ctx).error.TypeError?
    ensures WriteLogCorrected(map["pkg" := []], ctx) == Ok(Report(None, []))
  {
    var tests: map<string, seq<TestRecord>> := map["pkg" := []];
    OneEmptyPackage(tests, ctx);
  }

  /** The suites of one package with no scripts, as written and corrected. */
  lemma OneEmptyPackage(tests: map<string, seq<TestRecord>>, ctx: ReportCtx)
    requires tests == map["pkg" := []]
    ensures AllPackagesSuites(SortedKeys(tests.Keys), tests, ctx) == Ok([None])
    ensures AllPackagesSuitesCorrected(SortedKeys(tests.Keys), tests, ctx) == Ok([])
  {
    var keys := SortedKeys(tests.Keys);
    assert keys == ["pkg"] by {
      assert tests.Keys == {"pkg"};
      assert |keys| == 1 && keys[0] in tests.Keys;
    }
    assert keys[..0] == [] && tests["pkg"] == [];
    EmptyPackageSuites(ctx);
    assert AllPackagesSuites(keys[..0], tests, ctx) == Ok([]);
    assert AllPackagesSuites(keys, tests, ctx) == Ok([] + [None]);
    assert AllPackagesSuitesCorrected(keys[..0], tests, ctx) == Ok([]);
    assert PackageSuitesCorrected(keys[0], tests[keys[0]], ctx) == Ok([]);
    var none: seq<Suite> := [];
    assert AllPackagesSuitesCorrected(keys, tests, ctx) == Ok(none + none);
    assert none + none == none;
  }

  lemma EmptyPackageSuites(ctx: ReportCtx)
    ensures PackageSuitesSpec("pkg", [], ctx) == Ok([None])
    ensures PackageSuitesCorrected("pkg", [], ctx) == Ok([])
  {
    assert Accumulate("pkg", [], ctx) == Ok(Acc([], None));
    assert Wrap([]) + [None] == [None];
  }

  lemma WrapAppend(a: seq<Suite>, b: seq<Suite>)
    ensures Wrap(a + b) == Wrap(a) + Wrap(b)
  {
  }

  lemma NoNoneAppend(a: seq<Option<Suite>>, b: seq<Option<Suite>>)
    requires NoNone(a + b)
    ensures NoNone(a) && NoNone(b) && None !in b
  {
    assert forall i :: 0 <= i < |a| ==> (a + b)[i] == a[i];
    assert forall i :: 0 <= i < |b| ==> (a + b)[|a| + i] == b[i];
  }

  /** Package by package, wherever the as-written suites hold no None, the corrected ones are the same. */
  lemma {:induction false} AllPackagesAgree(keys: seq<string>, tests: map<string, seq<TestRecord>>, ctx: ReportCtx)
    requires forall i :: 0 <= i < |keys| ==> keys[i] in tests
    requires AllPackagesSuites(keys, tests, ctx).Ok? && NoNone(AllPackagesSuites(keys, tests, ctx).value)
    ensures AllPackagesSuitesCorrected(keys, tests, ctx).Ok?
    ensures AllPackagesSuites(keys, tests, ctx).value == Wrap(AllPackagesSuitesCorrected(keys, tests, ctx).value)
    decreases |keys|
  {
    if keys != [] {
      var pre := keys[..|keys| - 1];
      var p := keys[|keys| - 1];
      var r1 := AllPackagesSuites(pre, tests, ctx);
      var r2 := PackageSuitesSpec(p, tests[p], ctx);
      assert r1.Ok? && r2.Ok? && AllPackagesSuites(keys, tests, ctx).value == r1.value + r2.value;
      NoNoneAppend(r1.value, r2.value);
      AllPackagesAgree(pre, tests, ctx);
      PackageSuitesAgree(p, tests[p], ctx);
      var c1 := AllPackagesSuitesCorrected(pre, tests, ctx).value;
      var c2 := PackageSuitesCorrected(p, tests[p], ctx).value;
      assert AllPackagesSuitesCorrected(keys, tests, ctx) == Ok(c1 + c2);
      WrapAppend(c1, c2);
    }
  }

  /**
   * Wherever the as-written report is written, the corrected one is too,
   * with the same suites and the same run start.
   */
  lemma WriteLogAgrees(tests: map<string, seq<TestRecord>>, ctx: ReportCtx)
    requires WriteLogSpec(tests, ctx).Ok?
    ensures WriteLogCorrected(tests, ctx).Ok?
    ensures WriteLogCorrected(tests, ctx).value.suites == WriteLogSpec(tests, ctx).value.suites
    ensures WriteLogSpec(tests, ctx).value.runWindow.Some? ==>
      && WriteLogCorrected(tests, ctx).value.runWindow.Some?
      && WriteLogCorrected(tests, ctx).value.runWindow.value.tStart
         == WriteLogSpec(tests, ctx).value.runWindow.value.tStart
  {
    var keys := SortedKeys(tests.Keys);
    var all := AllPackagesSuites(keys, tests, ctx).value;
    if all == [] {
      assert NoNone(all);
    }
    AllPackagesAgree(keys, tests, ctx);
    var c := AllPackagesSuitesCorrected(keys, tests, ctx).value;
    UnwrapWrap(c);
    assert Unwrap(all) == c;
    if all != [] {
      SameRunStart(c);
    }
  }

  lemma UnwrapWrap(c: seq<Suite>)
    ensures NoNone(Wrap(c)) && Unwrap(Wrap(c)) == c
  {
  }

  /** The two run windows differ in their stop only, and fail together. */
  lemma SameRunStart(suites: seq<Suite>)
    ensures RunWindowAsWritten(suites).Ok? <==> RunWindowCorrected(suites).Ok?
    ensures RunWindowAsWritten(suites).Ok? ==>
      RunWindowAsWritten(suites).value.tStart == RunWindowCorrected(suites).value.tStart
  {
  }
}
