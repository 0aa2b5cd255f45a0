/**
 * `run_tests(package, tests)` of `testr/packages.py`: runs the included tests
 * of one package in order, updating each test record in place with its
 * status and start and stop times.
 *
 * The host is explicit: the `test_helper` environment (platform, process
 * environment), the interpreter path, the contents of the copied test files,
 * whether a launched command succeeds, and the clock readings.
 */
module PackagesRun {
  import opened Common
  import opened TestHelper
  import opened Packages
  import opened PackagesSkip

  /** A command as it is launched: a subprocess argv (Windows) or a bash command string. */
  datatype Launch =
    | Subprocess(argv: seq<string>, env: map<string, string>)
    | Shell(cmd: string, env: map<string, string>)

  datatype RunContext = RunContext(
    env: Env,                          // platform and os.environ
    executable: string,                // sys.executable
    contents: map<string, string>,     // the copied test files, by name
    rules: seq<SkipRule>,              // skip.yml of the package
    succeeds: Launch -> bool,          // exit status 0 (and, on Windows, no exception)
    startAt: nat -> string,            // clock reading when test i starts
    stopAt: nat -> string)             // clock reading when test i stops

  function InterpreterText(i: Interpreter): string {
    match i
    case Python => "python"
    case Bash => "bash"
    case NoInterpreter => "None"
  }

  /** The environment variable of a record key, `'TESTR_' + key.upper()`, for an upper-cased key. */
  function TestKey(key: string): (k: string)
    ensures StartsWith(k, "TESTR_")
  {
    var k := "TESTR_" + key;
    assert k[..6] == "TESTR_";
    k
  }

  /** `{'TESTR_' + key.upper(): str(val) for key, val in test.items()}`. */
  function TestEnv(t: TestRecord): (env: map<string, string>)
    ensures TestKey("FILE") in env && env[TestKey("FILE")] == t.file
    ensures TestKey("PACKAGE") in env && env[TestKey("PACKAGE")] == t.package
    ensures forall k :: k in env ==> StartsWith(k, "TESTR_")
  {
    var base := map[
      TestKey("FILE") := t.file,
      TestKey("STATUS") := StatusText(t.status),
      TestKey("INTERPRETER") := InterpreterText(t.interpreter),
      TestKey("OUT_DIR") := t.outDir,
      TestKey("REGRESS_DIR") := t.regressDir,
      TestKey("PACKAGES_REPO") := t.packagesRepo,
      TestKey("PACKAGE") := t.package,
      TestKey("PACKAGE_VERSION") := t.packageVersion];
    var withStart := if t.tStart.Some? then base[TestKey("T_START") := t.tStart.value] else base;
    if t.tStop.Some? then withStart[TestKey("T_STOP") := t.tStop.value] else withStart
  }

  /** The history variables copied from the process environment on POSIX. */
  function HistVars(environ: map<string, string>): (r: map<string, string>)
    ensures forall k :: k in r ==> k in environ && r[k] == environ[k]
    ensures forall k :: k in r ==> k in {"HISTSIZE", "HISTFILESIZE", "HISTIGNORE", "HISTCONTROL"}
  {
    map k | k in environ && k in {"HISTSIZE", "HISTFILESIZE", "HISTIGNORE", "HISTCONTROL"} :: environ[k]
  }

  /**
   * The POSIX command: the script text for bash (FileNotFound when it cannot
   * be read), `./file` with no interpreter, `interpreter file` otherwise.
   */
  function Command(t: TestRecord, contents: map<string, string>): (r: Result<string>)
    ensures r.Err? <==> t.interpreter == Bash && t.file !in contents
    ensures t.interpreter == NoInterpreter ==> r == Ok("./" + t.file)
    ensures t.interpreter == Python ==> r == Ok("python " + t.file)
  {
    match t.interpreter
    case Bash => if t.file in contents then Ok(contents[t.file]) else Err(FileNotFound(t.file))
    case NoInterpreter => Ok("./" + t.file)
    case Python => Ok("python " + t.file)
  }

  /** What is launched for a test: the environment is the test keys plus host variables. */
  function LaunchOf(t: TestRecord, ctx: RunContext): Result<Launch> {
    var env := TestEnv(t);
    if IsWindows(ctx.env) then Ok(Subprocess([ctx.executable, t.file], env + ctx.env.environ))
    else
      match Command(t, ctx.contents)
      case Err(e) => Err(e)
      case Ok(cmd) => Ok(Shell(cmd, env + HistVars(ctx.env.environ)))
  }

  /** On POSIX the launched environment carries every test key unchanged. */
  lemma PosixLaunchCarriesTestKeys(t: TestRecord, ctx: RunContext)
    requires !IsWindows(ctx.env) && LaunchOf(t, ctx).Ok?
    ensures var env := LaunchOf(t, ctx).value.env;
      forall k :: k in TestEnv(t) ==> k in env && env[k] == TestEnv(t)[k]
  {
    var env := TestEnv(t);
    var hist := HistVars(ctx.env.environ);
    assert LaunchOf(t, ctx).value.env == env + hist;
    forall k | k in env
      ensures k !in hist
    {
      assert StartsWith(k, "TESTR_");
      assert k[0] == 'T';
    }
  }

  /** On Windows the process environment wins over a test key of the same name. */
  lemma WindowsEnvironWins(t: TestRecord, ctx: RunContext, k: string)
    requires IsWindows(ctx.env) && k in ctx.env.environ
    ensures LaunchOf(t, ctx).Ok? && LaunchOf(t, ctx).value.env[k] == ctx.env.environ[k]
  {
  }

  /** A skip decision counts only when it is a non-empty string (Python truthiness). */
  predicate SkipsTest(d: Option<string>) {
    d.Some? && d.value != ""
  }

  /** One test after its turn in the loop, and the exception raised, if any. */
  datatype Step = Step(rec: TestRecord, error: Option<Error>)

  /** The effect of the loop body on test number `i`. */
  function StepTest(t: TestRecord, i: nat, ctx: RunContext): (r: Step)
    ensures r.rec == t.(status := r.rec.status, tStart := r.rec.tStart, tStop := r.rec.tStop)
    ensures r.rec.status == Skipped ==> r.rec.tStart == t.tStart && r.rec.tStop == t.tStop
    ensures r.error.Some? ==> r.rec.status == t.status && r.rec.tStop == t.tStop
  {
    if t.status == Skipped then Step(t, None)
    else
      match CheckSkipTest(t.file, ctx.rules, ctx.env)
      case Err(e) => Step(t, Some(e))
      case Ok(d) =>
        if SkipsTest(d) then Step(t.(status := Skipped), None)
        else
          var started := t.(tStart := Some(ctx.startAt(i)));
          match LaunchOf(t, ctx)
          case Err(e) => Step(started, Some(e))
          case Ok(l) =>
            Step(started.(status := if ctx.succeeds(l) then Pass else Fail,
                          tStop := Some(ctx.stopAt(i))), None)
  }

  /** A run of the loop: the records after it and the exception that ended it, if any. */
  datatype Run = Run(recs: seq<TestRecord>, error: Option<Error>)

  /**
   * A loop over `ts` whose body for element `i` is `step`, defined on its
   * last element so that a prefix of the list is a prefix of the run. Once
   * a step raises, later elements are left as they were.
   */
  function Scan(ts: seq<TestRecord>, step: (TestRecord, nat) -> Step): (r: Run)
    ensures |r.recs| == |ts|
    decreases |ts|
  {
    if ts == [] then Run([], None)
    else
      var prev := Scan(ts[..|ts| - 1], step);
      var last := ts[|ts| - 1];
      if prev.error.Some? then Run(prev.recs + [last], prev.error)
      else
        var s := step(last, |ts| - 1);
        Run(prev.recs + [s.rec], s.error)
  }

  function StepFn(ctx: RunContext): (TestRecord, nat) -> Step {
    (t: TestRecord, i: nat) => StepTest(t, i, ctx)
  }

  /** The loop of `run_tests` over `tests`. */
  function RunSpec(ts: seq<TestRecord>, ctx: RunContext): (r: Run)
    ensures |r.recs| == |ts|
  {
    Scan(ts, StepFn(ctx))
  }

  /**
   * The loop body for test number `i`: the skip check, then the launch with
   * `t_start` set before and `t_stop` after.
   */
  method RunOne(t: TestRecord, i: nat, ctx: RunContext) returns (s: Step)
    ensures s == StepTest(t, i, ctx)
  {
    if t.status == Skipped {
      return Step(t, None);
    }
    var decision := CheckSkipTest(t.file, ctx.rules, ctx.env);
    if decision.Err? {
      return Step(t, Some(decision.error));
    }
    if SkipsTest(decision.value) {
      return Step(t.(status := Skipped), None);
    }
    var rec := t.(tStart := Some(ctx.startAt(i)));
    var launch := LaunchOf(t, ctx);
    if launch.Err? {
      return Step(rec, Some(launch.error));
    }
    var status := if ctx.succeeds(launch.value) then Pass else Fail;
    rec := rec.(status := status, tStop := Some(ctx.stopAt(i)));
    return Step(rec, None);
  }

  /** `include_tests` is non-empty: some test is not excluded. */
  method AnyIncluded(tests: array<TestRecord>) returns (b: bool)
    ensures b <==> exists k :: 0 <= k < tests.Length && tests[k].status != Skipped
  {
    b := false;
    for i := 0 to tests.Length
      invariant b <==> exists k :: 0 <= k < i && tests[k].status != Skipped
    {
      if tests[i].status != Skipped {
        b := true;
      }
    }
  }

  /** `run_tests` ends in one of three ways. */
  datatype RunOutcome = NoIncludedTests | Completed | Raised(error: Error)

  /** The loop over the included tests; the first exception ends it. */
  method RunLoop(tests: array<TestRecord>, ctx: RunContext) returns (error: Option<Error>)
    modifies tests
    ensures tests[..] == RunSpec(old(tests[..]), ctx).recs
    ensures error == RunSpec(old(tests[..]), ctx).error
  {
    ghost var orig := tests[..];
    var i := 0;
    while i < tests.Length
      invariant 0 <= i <= tests.Length
      invariant tests[..i] == RunSpec(orig[..i], ctx).recs
      invariant RunSpec(orig[..i], ctx).error.None?
      invariant tests[i..] == orig[i..]
    {
      var s := RunOne(tests[i], i, ctx);
      ghost var before := tests[..];
      tests[i] := s.rec;
      LoopStep(orig, before, tests[..], i, s, ctx);
      if s.error.Some? {
        return s.error;
      }
      i := i + 1;
    }
    assert orig[..tests.Length] == orig && tests[..i] == tests[..];
    return None;
  }

  /**
   * `run_tests(package, tests)`. With no included test it bails out and
   * touches nothing; otherwise each record is updated in place as `RunSpec`
   * says, and the first exception ends the loop.
   */
  method RunTests(tests: array<TestRecord>, ctx: RunContext) returns (r: RunOutcome)
    modifies tests
    ensures r == NoIncludedTests <==> forall k :: 0 <= k < tests.Length ==> old(tests[k]).status == Skipped
    ensures tests[..] == RunSpec(old(tests[..]), ctx).recs
    ensures r.Raised? <==> RunSpec(old(tests[..]), ctx).error.Some?
    ensures r.Raised? ==> RunSpec(old(tests[..]), ctx).error == Some(r.error)
  {
    var included := AnyIncluded(tests);
    if !included {
      AllSkippedUnchanged(tests[..], ctx);
      return NoIncludedTests;
    }
    var error := RunLoop(tests, ctx);
    r := if error.Some? then Raised(error.value) else Completed;
  }

  /** The loop invariant of `RunLoop` survives one turn, or the turn raised and the run is over. */
  lemma LoopStep(orig: seq<TestRecord>, before: seq<TestRecord>, after: seq<TestRecord>,
                 i: nat, s: Step, ctx: RunContext)
    requires i < |orig| == |before|
    requires before[..i] == RunSpec(orig[..i], ctx).recs && RunSpec(orig[..i], ctx).error.None?
    requires before[i..] == orig[i..]
    requires s == StepTest(orig[i], i, ctx) && after == before[i := s.rec]
    ensures s.error.None? ==>
      && after[..i + 1] == RunSpec(orig[..i + 1], ctx).recs && RunSpec(orig[..i + 1], ctx).error.None?
      && after[i + 1..] == orig[i + 1..]
    ensures s.error.Some? ==> after == RunSpec(orig, ctx).recs && s.error == RunSpec(orig, ctx).error
  {
    assert before[i] == orig[i] by { assert before[i..][0] == orig[i..][0]; }
    assert after[i + 1..] == orig[i + 1..] by {
      assert after[i + 1..] == before[i + 1..] == before[i..][1..];
      assert orig[i + 1..] == orig[i..][1..];
    }
    RunSpecStep(orig, i, ctx);
    assert after[..i + 1] == RunSpec(orig[..i + 1], ctx).recs by {
      assert after[..i + 1] == before[..i] + [s.rec];
    }
    if s.error.Some? {
      SpliceRaised(orig, after, i + 1, ctx);
    }
  }

  /** A run that raised at test `j - 1` leaves the rest of the list as it was. */
  lemma SpliceRaised(orig: seq<TestRecord>, after: seq<TestRecord>, j: nat, ctx: RunContext)
    requires j <= |orig| == |after|
    requires after[..j] == RunSpec(orig[..j], ctx).recs && RunSpec(orig[..j], ctx).error.Some?
    requires after[j..] == orig[j..]
    ensures after == RunSpec(orig, ctx).recs && RunSpec(orig[..j], ctx).error == RunSpec(orig, ctx).error
  {
    ScanSplice(orig, after, j, StepFn(ctx));
  }

  lemma ScanSplice(orig: seq<TestRecord>, after: seq<TestRecord>, j: nat, step: (TestRecord, nat) -> Step)
    requires j <= |orig| == |after|
    requires after[..j] == Scan(orig[..j], step).recs && Scan(orig[..j], step).error.Some?
    requires after[j..] == orig[j..]
    ensures after == Scan(orig, step).recs && Scan(orig[..j], step).error == Scan(orig, step).error
  {
    ScanFrozen(orig, j, step);
    assert after == after[..j] + after[j..];
  }

  /** One more turn of the loop, while nothing has raised. */
  lemma RunSpecStep(ts: seq<TestRecord>, i: nat, ctx: RunContext)
    requires i < |ts| && RunSpec(ts[..i], ctx).error.None?
    ensures var s := StepTest(ts[i], i, ctx);
      RunSpec(ts[..i + 1], ctx) == Run(RunSpec(ts[..i], ctx).recs + [s.rec], s.error)
  {
    ScanStep(ts, i, StepFn(ctx));
  }

  lemma ScanStep(ts: seq<TestRecord>, i: nat, step: (TestRecord, nat) -> Step)
    requires i < |ts| && Scan(ts[..i], step).error.None?
    ensures Scan(ts[..i + 1], step) == Run(Scan(ts[..i], step).recs + [step(ts[i], i).rec], step(ts[i], i).error)
  {
    assert ts[..i + 1][..i] == ts[..i] && ts[..i + 1][i] == ts[i];
  }

  /** A list whose tests are all excluded runs to itself, without error. */
  lemma AllSkippedUnchanged(ts: seq<TestRecord>, ctx: RunContext)
    requires forall k :: 0 <= k < |ts| ==> ts[k].status == Skipped
    ensures RunSpec(ts, ctx) == Run(ts, None)
  {
    ScanIdle(ts, StepFn(ctx));
  }

  lemma {:induction false} ScanIdle(ts: seq<TestRecord>, step: (TestRecord, nat) -> Step)
    requires forall k :: 0 <= k < |ts| ==> step(ts[k], k) == Step(ts[k], None)
    ensures Scan(ts, step) == Run(ts, None)
    decreases |ts|
  {
    if ts != [] {
      var n := |ts|;
      var pre := ts[..n - 1];
      assert forall k :: 0 <= k < n - 1 ==> pre[k] == ts[k];
      ScanIdle(pre, step);
      assert step(ts[n - 1], n - 1) == Step(ts[n - 1], None);
      assert Scan(ts, step) == Run(pre + [ts[n - 1]], None);
      assert pre + [ts[n - 1]] == ts;
    }
  }

  /** After the test that raised, the remaining records are left as they were. */
  lemma RunSpecFrozen(ts: seq<TestRecord>, j: nat, ctx: RunContext)
    requires j <= |ts| && RunSpec(ts[..j], ctx).error.Some?
    ensures RunSpec(ts, ctx) == Run(RunSpec(ts[..j], ctx).recs + ts[j..], RunSpec(ts[..j], ctx).error)
  {
    ScanFrozen(ts, j, StepFn(ctx));
  }

  lemma {:induction false} ScanFrozen(ts: seq<TestRecord>, j: nat, step: (TestRecord, nat) -> Step)
    requires j <= |ts| && Scan(ts[..j], step).error.Some?
    ensures Scan(ts, step) == Run(Scan(ts[..j], step).recs + ts[j..], Scan(ts[..j], step).error)
    decreases |ts| - j
  {
    if j == |ts| {
      assert ts[..j] == ts && ts[j..] == [];
    } else {
      var n := |ts|;
      assert ts[..n - 1][..j] == ts[..j];
      ScanFrozen(ts[..n - 1], j, step);
      assert ts[..n - 1][j..] + [ts[n - 1]] == ts[j..] by {
        assert ts[..n - 1][j..] == ts[j..n - 1];
        assert ts[n - 1..] == [ts[n - 1]];
        assert ts[j..n - 1] + ts[n - 1..] == ts[j..];
      }
    }
  }

  /** Running a list without error updates each record on its own. */
  lemma RunSpecPointwise(ts: seq<TestRecord>, ctx: RunContext)
    requires RunSpec(ts, ctx).error.None?
    ensures forall k :: 0 <= k < |ts| ==>
              StepTest(ts[k], k, ctx).error.None? && RunSpec(ts, ctx).recs[k] == StepTest(ts[k], k, ctx).rec
  {
    ScanPointwise(ts, StepFn(ctx));
  }

  lemma {:induction false} ScanPointwise(ts: seq<TestRecord>, step: (TestRecord, nat) -> Step)
    requires Scan(ts, step).error.None?
    ensures forall k :: 0 <= k < |ts| ==>
              step(ts[k], k).error.None? && Scan(ts, step).recs[k] == step(ts[k], k).rec
    decreases |ts|
  {
    if ts != [] {
      var n := |ts|;
      ScanPointwise(ts[..n - 1], step);
      forall k | 0 <= k < n - 1
        ensures step(ts[k], k).error.None? && Scan(ts, step).recs[k] == step(ts[k], k).rec
      {
        assert ts[..n - 1][k] == ts[k];
      }
    }
  }

  /**
   * What one step does: excluded tests are untouched; an included test is
   * either skipped by a rule with a non-empty reason or run, and a run test
   * has both times and passes exactly when its command succeeds. Only the
   * status and the times ever change.
   */
  lemma StepOutcome(t: TestRecord, i: nat, ctx: RunContext)
    ensures var s := StepTest(t, i, ctx);
      && s.rec == t.(status := s.rec.status, tStart := s.rec.tStart, tStop := s.rec.tStop)
      && (t.status == Skipped ==> s == Step(t, None))
      && (s.rec.status == Skipped ==> s.rec.tStart == t.tStart && s.rec.tStop == t.tStop)
      && (t.status != Skipped && s.error.None? ==>
            var d := CheckSkipTest(t.file, ctx.rules, ctx.env);
            && d.Ok?
            && (s.rec.status == Skipped <==> SkipsTest(d.value))
            && (s.rec.status != Skipped ==>
                  && LaunchOf(t, ctx).Ok?
                  && s.rec.tStart == Some(ctx.startAt(i)) && s.rec.tStop == Some(ctx.stopAt(i))
                  && (s.rec.status == Pass <==> ctx.succeeds(LaunchOf(t, ctx).value))
                  && (s.rec.status == Fail <==> !ctx.succeeds(LaunchOf(t, ctx).value))))
  {
  }

  /**
   * After a run that raised nothing no test is left 'not run': every record
   * is excluded, skipped, passed or failed.
   */
  lemma NoTestLeftNotRun(ts: seq<TestRecord>, ctx: RunContext)
    requires RunSpec(ts, ctx).error.None?
    requires forall k :: 0 <= k < |ts| ==> ts[k].status in {NotRun, Skipped}
    ensures forall k :: 0 <= k < |ts| ==> RunSpec(ts, ctx).recs[k].status in {Skipped, Pass, Fail}
  {
    RunSpecPointwise(ts, ctx);
    forall k | 0 <= k < |ts| ensures RunSpec(ts, ctx).recs[k].status in {Skipped, Pass, Fail} {
      StepOutcome(ts[k], k, ctx);
    }
  }

  /** Each record after a loop is either as it was or what the body made of it. */
  lemma {:induction false} ScanEach(ts: seq<TestRecord>, step: (TestRecord, nat) -> Step)
    ensures forall k :: 0 <= k < |ts| ==>
              Scan(ts, step).recs[k] == ts[k] || Scan(ts, step).recs[k] == step(ts[k], k).rec
    decreases |ts|
  {
    if ts != [] {
      var n := |ts|;
      ScanEach(ts[..n - 1], step);
      forall k | 0 <= k < n - 1
        ensures Scan(ts, step).recs[k] == ts[k] || Scan(ts, step).recs[k] == step(ts[k], k).rec
      {
        assert ts[..n - 1][k] == ts[k];
      }
    }
  }

  /**
   * Tests collected without times that end up skipped, whether excluded at
   * collection or by a skip rule, carry no start or stop time, whatever the
   * run raised.
   */
  lemma SkippedCarryNoTimes(ts: seq<TestRecord>, ctx: RunContext)
    requires forall k :: 0 <= k < |ts| ==> ts[k].tStart.None? && ts[k].tStop.None?
    ensures forall k :: 0 <= k < |ts| && RunSpec(ts, ctx).recs[k].status == Skipped ==>
              RunSpec(ts, ctx).recs[k].tStart.None? && RunSpec(ts, ctx).recs[k].tStop.None?
  {
    ScanEach(ts, StepFn(ctx));
    forall k | 0 <= k < |ts| && RunSpec(ts, ctx).recs[k].status == Skipped
      ensures RunSpec(ts, ctx).recs[k].tStart.None? && RunSpec(ts, ctx).recs[k].tStop.None?
    {
      assert StepFn(ctx)(ts[k], k) == StepTest(ts[k], k, ctx);
    }
  }
}
