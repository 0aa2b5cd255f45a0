/**
 * `process_opt` of `testr/packages.py`: the run's directories are derived
 * from the options, and the test-spec file, when given, adds include and
 * exclude patterns line by line. The options object is updated in place.
 */
module PackagesOptions {
  import opened Common

  /**
   * The global `opt`, as far as `process_opt` reads and writes it. The
   * directories are held as `pathlib` paths; `--root` and `--outputs-dir`
   * are strings only until `process_opt` wraps them in `Path`, which nothing
   * before it observes, so they are parsed when the options are made.
   */
  class Options {
    var root: PPath
    var outputsDir: PPath
    var testSpec: Option<string>
    var includes: seq<string>
    var excludes: seq<string>
    var packagesDir: PPath
    var logDir: PPath
    var regressDir: PPath

    /** The options as parsed: `--root`, `--outputs-dir`, `--test-spec`, `--include`, `--exclude`. */
    constructor(root: string, outputsDir: string, testSpec: Option<string>,
                includes: seq<string>, excludes: seq<string>)
      ensures this.root == ParsePath(root) && this.outputsDir == ParsePath(outputsDir)
      ensures this.testSpec == testSpec
      ensures this.includes == includes && this.excludes == excludes
      ensures packagesDir == logDir == regressDir == PPath("", [])
    {
      this.root := ParsePath(root);
      this.outputsDir := ParsePath(outputsDir);
      this.testSpec := testSpec;
      this.includes := includes;
      this.excludes := excludes;
      packagesDir := PPath("", []);
      logDir := PPath("", []);
      regressDir := PPath("", []);
    }
  }

  /**
   * `p.absolute()` from the working directory `cwd`: a path with a root is
   * kept, the parts of any other are put after those of `cwd`.
   */
  function Absolute(cwd: string, p: PPath): (r: PPath)
    ensures p.root != "" ==> r == p
    ensures p.root == "" ==> r.root == ParsePath(cwd).root && r.parts == ParsePath(cwd).parts + p.parts
    ensures StartsWith(cwd, "/") ==> r.root != ""
  {
    if p.root != "" then p else JoinPath(ParsePath(cwd), p)
  }

  /** An absolute path stays as it is. */
  lemma AbsoluteIdempotent(cwd: string, p: PPath)
    requires StartsWith(cwd, "/")
    ensures Absolute(cwd, Absolute(cwd, p)) == Absolute(cwd, p)
  {
  }

  /** The default root `.` is the working directory itself. */
  lemma AbsoluteDot(cwd: string)
    ensures Absolute(cwd, ParsePath(".")) == ParsePath(cwd)
    ensures PathStr(ParsePath(cwd)) == cwd ==> PathStr(Absolute(cwd, ParsePath("."))) == cwd
  {
    ParseDot();
    assert ParsePath(cwd).parts + [] == ParsePath(cwd).parts;
  }

  /**
   * With the default root `.` and the working directory spelled as `pathlib`
   * spells it (`/home/u`, say), a spec file given by its plain name is looked
   * up at the working directory's own `/name` (`/home/u/spec.txt`) and found there.
   */
  lemma DefaultRootSpec(cwd: string, name: string, files: map<string, seq<string>>)
    requires PathStr(ParsePath(cwd)) == cwd && ParsePath(cwd).parts != []
    requires PureComp(name) && '/' !in name
    requires cwd + "/" + name in files
    ensures SpecPath(name, Absolute(cwd, ParsePath(".")), cwd, files) == Some(ParsePath(name))
  {
    AbsoluteDot(cwd);
    ParseName(name);
    ParsedWellFormed(cwd);
    ChildStr(ParsePath(cwd), name);
    assert Absolute(cwd, PPath("", [name])) == Child(ParsePath(cwd), name);
  }

  // ---------------------------------------------------------------------
  // The test-spec file

  /** A stripped line that counts: not blank and not a `#` comment. */
  predicate Kept(s: string) {
    s != "" && !StartsWith(s, "#")
  }

  /** A spec line that names an include pattern. */
  predicate IsInclude(s: string) {
    s != "" && !StartsWith(s, "-")
  }

  /** The lines of the file, each stripped. */
  function Stripped(lines: seq<string>): (r: seq<string>)
    ensures |r| == |lines| && forall i :: 0 <= i < |lines| ==> r[i] == Strip(lines[i])
  {
    seq(|lines|, i requires 0 <= i < |lines| => Strip(lines[i]))
  }

  /** The stripped lines that count, in order. */
  function KeepLines(ss: seq<string>): (r: seq<string>)
    ensures |r| <= |ss|
    ensures forall k :: 0 <= k < |r| ==> Kept(r[k])
    decreases |ss|
  {
    if ss == [] then []
    else
      var n := |ss| - 1;
      KeepLines(ss[..n]) + (if Kept(ss[n]) then [ss[n]] else [])
  }

  /** The lines of the test-spec file that count, stripped. */
  function SpecLines(lines: seq<string>): seq<string> {
    KeepLines(Stripped(lines))
  }

  /** Exactly the stripped lines that count are kept. */
  lemma {:induction false} KeepLinesAre(ss: seq<string>)
    ensures forall x :: x in KeepLines(ss) <==> x in ss && Kept(x)
    decreases |ss|
  {
    if ss != [] {
      var n := |ss| - 1;
      KeepLinesAre(ss[..n]);
      assert ss == ss[..n] + [ss[n]];
    }
  }

  /** The spec lines are the stripped lines of the file that are neither blank nor comments. */
  lemma SpecLinesAre(lines: seq<string>)
    ensures forall x :: x in SpecLines(lines) <==>
      Kept(x) && exists i :: 0 <= i < |lines| && Strip(lines[i]) == x
  {
    var ss := Stripped(lines);
    KeepLinesAre(ss);
    forall x ensures x in ss <==> exists i :: 0 <= i < |lines| && Strip(lines[i]) == x {
      if x in ss {
        var i :| 0 <= i < |ss| && ss[i] == x;
      }
    }
  }

  /** The include patterns among the spec lines: those not starting with `-`. */
  function SpecIncludes(specs: seq<string>): (r: seq<string>)
    decreases |specs|
  {
    if specs == [] then []
    else
      var n := |specs| - 1;
      SpecIncludes(specs[..n]) + (if IsInclude(specs[n]) then [specs[n]] else [])
  }

  /** The exclude patterns among the spec lines: those starting with `-`, without it. */
  function SpecExcludes(specs: seq<string>): (r: seq<string>)
    decreases |specs|
  {
    if specs == [] then []
    else
      var n := |specs| - 1;
      SpecExcludes(specs[..n]) + (if StartsWith(specs[n], "-") then [specs[n][1..]] else [])
  }

  /** A line is an include pattern iff it is not blank and does not start with `-`. */
  lemma {:induction false} SpecIncludesAre(specs: seq<string>)
    ensures forall x :: x in SpecIncludes(specs) <==> x in specs && IsInclude(x)
    decreases |specs|
  {
    if specs != [] {
      var n := |specs| - 1;
      SpecIncludesAre(specs[..n]);
      assert specs == specs[..n] + [specs[n]];
    }
  }

  /** `x` is an exclude pattern iff the line `-x` is in the spec. */
  lemma {:induction false} SpecExcludesAre(specs: seq<string>)
    ensures forall x :: x in SpecExcludes(specs) <==> "-" + x in specs
    decreases |specs|
  {
    if specs != [] {
      var n := |specs| - 1;
      var s := specs[n];
      SpecExcludesAre(specs[..n]);
      assert specs == specs[..n] + [s];
      forall x ensures "-" + x == s <==> StartsWith(s, "-") && x == s[1..] {
        assert ("-" + x)[0] == '-' && ("-" + x)[1..] == x;
        if StartsWith(s, "-") { assert "-" + s[1..] == s; }
      }
    }
  }

  /** Every spec line becomes exactly one pattern. */
  lemma {:induction false} SpecSplitsLines(lines: seq<string>)
    ensures var specs := SpecLines(lines);
      |SpecIncludes(specs)| + |SpecExcludes(specs)| == |specs|
  {
    var specs := SpecLines(lines);
    SplitCounts(specs);
  }

  lemma {:induction false} SplitCounts(specs: seq<string>)
    requires forall k :: 0 <= k < |specs| ==> Kept(specs[k])
    ensures |SpecIncludes(specs)| + |SpecExcludes(specs)| == |specs|
    decreases |specs|
  {
    if specs != [] {
      SplitCounts(specs[..|specs| - 1]);
    }
  }

  /** The patterns after the spec lines; an empty include list becomes `['*']`. */
  function FinalIncludes(includes: seq<string>, specs: seq<string>): (r: seq<string>)
    ensures r != []
    ensures r == ["*"] || r == includes + SpecIncludes(specs)
  {
    var all := includes + SpecIncludes(specs);
    if all == [] then ["*"] else all
  }

  /** `['*']` is used exactly when neither the command line nor the spec file named an include. */
  lemma DefaultInclude(includes: seq<string>, specs: seq<string>)
    ensures FinalIncludes(includes, specs) == includes + SpecIncludes(specs) <==>
      (includes != [] || exists k :: 0 <= k < |specs| && IsInclude(specs[k]))
  {
    if exists k :: 0 <= k < |specs| && IsInclude(specs[k]) {
      var k :| 0 <= k < |specs| && IsInclude(specs[k]);
      SpecIncludesAre(specs);
      assert specs[k] in SpecIncludes(specs);
    } else {
      SpecIncludesNone(specs);
    }
  }

  /** With no include line, the spec adds no include pattern. */
  lemma {:induction false} SpecIncludesNone(specs: seq<string>)
    requires forall k :: 0 <= k < |specs| ==> !IsInclude(specs[k])
    ensures SpecIncludes(specs) == []
    decreases |specs|
  {
    if specs != [] {
      SpecIncludesNone(specs[..|specs| - 1]);
    }
  }

  /** The loop over the spec lines. */
  method AddSpecs(opt: Options, specs: seq<string>)
    modifies opt`includes, opt`excludes
    ensures opt.includes == old(opt.includes) + SpecIncludes(specs)
    ensures opt.excludes == old(opt.excludes) + SpecExcludes(specs)
  {
    for k := 0 to |specs|
      invariant opt.includes == old(opt.includes) + SpecIncludes(specs[..k])
      invariant opt.excludes == old(opt.excludes) + SpecExcludes(specs[..k])
    {
      assert specs[..k + 1][..k] == specs[..k] && specs[..k + 1][k] == specs[k];
      var spec := specs[k];
      assert SpecIncludes(specs[..k + 1]) ==
        SpecIncludes(specs[..k]) + (if IsInclude(spec) then [spec] else []);
      assert SpecExcludes(specs[..k + 1]) ==
        SpecExcludes(specs[..k]) + (if StartsWith(spec, "-") then [spec[1..]] else []);
      if spec != "" {
        if StartsWith(spec, "-") {
          opt.excludes := opt.excludes + [spec[1..]];
        } else {
          opt.includes := opt.includes + [spec];
        }
      }
    }
    assert specs[..|specs|] == specs;
  }

  /** The spec lines that count, read with a loop over the file. */
  method ReadSpecs(lines: seq<string>) returns (specs: seq<string>)
    ensures specs == SpecLines(lines)
  {
    specs := [];
    for i := 0 to |lines|
      invariant specs == SpecLines(lines[..i])
    {
      var s := Strip(lines[i]);
      SpecLinesSnoc(lines, i);
      if Kept(s) {
        specs := specs + [s];
      }
    }
    assert lines[..|lines|] == lines;
  }

  /** Reading one more line appends it, stripped, when it counts. */
  lemma SpecLinesSnoc(lines: seq<string>, i: nat)
    requires i < |lines|
    ensures var s := Strip(lines[i]);
      SpecLines(lines[..i + 1]) == SpecLines(lines[..i]) + (if Kept(s) then [s] else [])
  {
    var ss := Stripped(lines[..i + 1]);
    assert ss[..i] == Stripped(lines[..i]);
    assert ss[..i + 1][..i] == ss[..i] && ss[i] == Strip(lines[i]);
    assert ss[..i + 1] == ss;
  }

  /** `p.exists()`, with the files that exist keyed by absolute path. */
  predicate Exists(p: PPath, cwd: string, files: map<string, seq<string>>) {
    PathStr(Absolute(cwd, p)) in files
  }

  /**
   * Where the test-spec file is found: `Path(spec)` as given, else under the
   * root; None when neither exists. A relative path is looked up from `cwd`.
   */
  function SpecPath(spec: string, root: PPath, cwd: string, files: map<string, seq<string>>): (r: Option<PPath>)
    ensures r.Some? ==> Exists(r.value, cwd, files)
    ensures r.Some? ==> r.value == ParsePath(spec) || r.value == Slash(root, spec)
    ensures r.None? <==> !Exists(ParsePath(spec), cwd, files) && !Exists(Slash(root, spec), cwd, files)
  {
    var given := ParsePath(spec);
    if Exists(given, cwd, files) then Some(given)
    else if Exists(JoinPath(root, given), cwd, files) then Some(JoinPath(root, given))
    else None
  }

  /** `if opt.test_spec:` a spec was given and is not the empty string. */
  predicate SpecGiven(spec: Option<string>) {
    spec.Some? && spec.value != ""
  }

  /**
   * `process_opt()`. The working directory, the version id naming this run's
   * sub-directories and the files that exist (keyed by absolute path as
   * `str` spells it) are parameters. A test spec that exists neither as
   * given nor under the root ends the program with status 1.
   */
  method ProcessOpt(opt: Options, cwd: string, versionId: string, files: map<string, seq<string>>)
    returns (error: Option<Error>)
    modifies opt
    ensures opt.root == Absolute(cwd, old(opt.root))
    ensures opt.outputsDir == old(opt.outputsDir)
    ensures opt.packagesDir == Child(opt.root, "packages")
    ensures opt.logDir == Absolute(cwd, Slash(Child(opt.outputsDir, "logs"), versionId))
    ensures var regress := Absolute(cwd, Slash(Child(opt.outputsDir, "regress"), versionId));
      if !SpecGiven(old(opt.testSpec)) then
        && error.None?
        && opt.regressDir == regress
        && opt.testSpec == old(opt.testSpec)
        && opt.excludes == old(opt.excludes)
        && opt.includes == FinalIncludes(old(opt.includes), [])
      else
        match SpecPath(old(opt.testSpec).value, opt.root, cwd, files)
        case None => error == Some(SystemExit(1))
        case Some(path) =>
          && error.None?
          && opt.testSpec == Some(PathStr(path))
          && opt.regressDir == Slash(regress, PathName(path))
          && opt.excludes == old(opt.excludes) + SpecExcludes(SpecLines(files[PathStr(Absolute(cwd, path))]))
          && opt.includes == FinalIncludes(old(opt.includes), SpecLines(files[PathStr(Absolute(cwd, path))]))
  {
    SetDirs(opt, cwd, versionId);
    error := ProcessSpec(opt, cwd, files);
  }

  /**
   * The test-spec half of `process_opt`, after the directories are set: the
   * spec is located, its name qualifies the regression directory and its
   * lines add patterns; then an empty include list becomes `['*']`.
   */
  method ProcessSpec(opt: Options, cwd: string, files: map<string, seq<string>>)
    returns (error: Option<Error>)
    modifies opt`testSpec, opt`regressDir, opt`includes, opt`excludes
    ensures
      if !SpecGiven(old(opt.testSpec)) then
        && error.None?
        && opt.regressDir == old(opt.regressDir)
        && opt.testSpec == old(opt.testSpec)
        && opt.excludes == old(opt.excludes)
        && opt.includes == FinalIncludes(old(opt.includes), [])
      else
        match SpecPath(old(opt.testSpec).value, opt.root, cwd, files)
        case None => error == Some(SystemExit(1))
        case Some(path) =>
          && error.None?
          && opt.testSpec == Some(PathStr(path))
          && opt.regressDir == Slash(old(opt.regressDir), PathName(path))
          && opt.excludes == old(opt.excludes) + SpecExcludes(SpecLines(files[PathStr(Absolute(cwd, path))]))
          && opt.includes == FinalIncludes(old(opt.includes), SpecLines(files[PathStr(Absolute(cwd, path))]))
  {
    ghost var includes := opt.includes;
    if SpecGiven(opt.testSpec) {
      var path := SpecPath(opt.testSpec.value, opt.root, cwd, files);
      if path.None? {
        return Some(SystemExit(1));
      }
      LoadSpec(opt, path.value, files[PathStr(Absolute(cwd, path.value))]);
    } else {
      assert opt.includes == includes + SpecIncludes([]);
      DefaultToAll(opt, includes, []);
    }
    error := None;
  }

  /** The test spec found at `path`, with the lines of its file: applied, then the default include added. */
  method LoadSpec(opt: Options, path: PPath, lines: seq<string>)
    modifies opt`testSpec, opt`regressDir, opt`includes, opt`excludes
    ensures opt.testSpec == Some(PathStr(path))
    ensures opt.regressDir == Slash(old(opt.regressDir), PathName(path))
    ensures opt.excludes == old(opt.excludes) + SpecExcludes(SpecLines(lines))
    ensures opt.includes == FinalIncludes(old(opt.includes), SpecLines(lines))
  {
    ghost var includes := opt.includes;
    var specs := ReadSpecs(lines);
    ApplySpec(opt, path, specs);
    DefaultToAll(opt, includes, specs);
  }

  /** An empty include list becomes `['*']`. */
  method DefaultToAll(opt: Options, ghost includes: seq<string>, ghost specs: seq<string>)
    requires opt.includes == includes + SpecIncludes(specs)
    modifies opt`includes
    ensures opt.includes == FinalIncludes(includes, specs)
  {
    if opt.includes == [] {
      opt.includes := ["*"];
    }
  }

  /** The directories `process_opt` sets: the absolute root, the packages, and this run's logs and regression outputs. */
  method SetDirs(opt: Options, cwd: string, versionId: string)
    modifies opt`root, opt`packagesDir, opt`logDir, opt`regressDir
    ensures opt.root == Absolute(cwd, old(opt.root))
    ensures opt.packagesDir == Child(opt.root, "packages")
    ensures opt.logDir == Absolute(cwd, Slash(Child(opt.outputsDir, "logs"), versionId))
    ensures opt.regressDir == Absolute(cwd, Slash(Child(opt.outputsDir, "regress"), versionId))
  {
    opt.root := Absolute(cwd, opt.root);
    opt.packagesDir := Child(opt.root, "packages");
    opt.logDir := Absolute(cwd, Slash(Child(opt.outputsDir, "logs"), versionId));
    opt.regressDir := Absolute(cwd, Slash(Child(opt.outputsDir, "regress"), versionId));
  }

  /** The test spec found at `path`: its name qualifies the regression directory and its lines add patterns. */
  method ApplySpec(opt: Options, path: PPath, specs: seq<string>)
    modifies opt`testSpec, opt`regressDir, opt`includes, opt`excludes
    ensures opt.testSpec == Some(PathStr(path))
    ensures opt.regressDir == Slash(old(opt.regressDir), PathName(path))
    ensures opt.includes == old(opt.includes) + SpecIncludes(specs)
    ensures opt.excludes == old(opt.excludes) + SpecExcludes(specs)
  {
    opt.testSpec := Some(PathStr(path));
    opt.regressDir := Slash(opt.regressDir, PathName(path));
    AddSpecs(opt, specs);
  }
}
