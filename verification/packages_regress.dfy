/**
 * The regression helpers of `testr/packages.py` that package tests call:
 * `make_regress_files`, which copies output files into the regression
 * directory after cleaning them line by line, and `check_files`, which
 * scans output files for lines that match a check and no allow pattern.
 * The filesystem is a `FileStore` object; regular expressions stay abstract
 * (`Substitute` for `re.sub`, `Search` for a case-insensitive `re.search`).
 */
module PackagesRegress {
  import opened Common
  import PackagesSkip

  /** The files (each as its list of lines, as `readlines` gives them) and directories that exist. */
  class FileStore {
    var files: map<string, seq<string>>
    var dirs: set<string>

    constructor(files: map<string, seq<string>>, dirs: set<string>)
      ensures this.files == files && this.dirs == dirs
    {
      this.files := files;
      this.dirs := dirs;
    }

    /** `os.makedirs(d)`. */
    method MakeDirs(d: string)
      modifies this
      ensures dirs == old(dirs) + {d} && files == old(files)
    {
      dirs := dirs + {d};
    }

    /** `open(path, 'w').writelines(lines)`. */
    method Write(path: string, lines: seq<string>)
      modifies this
      ensures files == old(files)[path := lines] && dirs == old(dirs)
    {
      files := files[path := lines];
    }
  }

  /** `os.environ.get(key)`. */
  function EnvGet(environ: map<string, string>, key: string): (r: Option<string>)
    ensures r.Some? <==> key in environ
    ensures r.Some? ==> r.value == environ[key]
  {
    if key in environ then Some(environ[key]) else None
  }

  /** The argument, or the environment variable when the argument is None. */
  function OrEnv(arg: Option<string>, environ: map<string, string>, key: string): (r: Option<string>)
    ensures arg.Some? ==> r == arg
    ensures arg.None? ==> r == EnvGet(environ, key)
  {
    if arg.Some? then arg else EnvGet(environ, key)
  }

  /** `Path(None)`. */
  const NoPath := TypeError("expected str, bytes or os.PathLike object, not NoneType")

  // ---------------------------------------------------------------------
  // make_regress_files

  /** A cleaning rule `(match_regex, substitution_string)`. */
  datatype Rule = Rule(pattern: string, replacement: string)

  /** `re.sub(pattern, replacement, line)`. */
  type Substitute = (string, string, string) -> string

  /** One line after the rules, applied in order. */
  function CleanLine(line: string, rules: seq<Rule>, sub: Substitute): string
    decreases |rules|
  {
    if rules == [] then line
    else
      var rule := rules[|rules| - 1];
      sub(rule.pattern, rule.replacement, CleanLine(line, rules[..|rules| - 1], sub))
  }

  /** The lines after each rule in turn has rewritten every line. */
  function CleanLines(lines: seq<string>, rules: seq<Rule>, sub: Substitute): (r: seq<string>)
    ensures |r| == |lines|
    ensures rules == [] ==> r == lines
    decreases |rules|
  {
    if rules == [] then lines
    else
      var rule := rules[|rules| - 1];
      var prev := CleanLines(lines, rules[..|rules| - 1], sub);
      seq(|prev|, i requires 0 <= i < |prev| => sub(rule.pattern, rule.replacement, prev[i]))
  }

  /** Cleaning works line by line: each line gets every rule, in the given order. */
  lemma {:induction false} CleanLinesPerLine(lines: seq<string>, rules: seq<Rule>, sub: Substitute)
    ensures forall i :: 0 <= i < |lines| ==> CleanLines(lines, rules, sub)[i] == CleanLine(lines[i], rules, sub)
    decreases |rules|
  {
    if rules != [] {
      CleanLinesPerLine(lines, rules[..|rules| - 1], sub);
    }
  }

  /** The lines written for one regression file: cleaned by its rules, if it has any. */
  function Cleaned(lines: seq<string>, rf: string, clean: map<string, seq<Rule>>, sub: Substitute): seq<string> {
    if rf in clean then CleanLines(lines, clean[rf], sub) else lines
  }

  /** The file store, and the error that stopped the copying if any. */
  datatype RegressState = RegressState(files: map<string, seq<string>>, dirs: set<string>, error: Option<Error>)

  /** One regression file: its relative path, where it is read from and where it is written. */
  datatype Job = Job(rf: string, src: string, dest: string)

  /** The jobs of `make_regress_files`: `out_dir / rf` copied to `regress_dir / rf`. */
  function Jobs(rfs: seq<string>, outDir: string, regressDir: string): (js: seq<Job>)
    ensures |js| == |rfs|
    ensures forall i :: 0 <= i < |rfs| ==> js[i] == Job(rfs[i], PathJoin(outDir, rfs[i]), PathJoin(regressDir, rfs[i]))
  {
    seq(|rfs|, i requires 0 <= i < |rfs| => Job(rfs[i], PathJoin(outDir, rfs[i]), PathJoin(regressDir, rfs[i])))
  }

  /** Copying one regression file; a missing source raises FileNotFoundError. */
  function CopyOne(st: RegressState, j: Job, clean: map<string, seq<Rule>>, sub: Substitute): (r: RegressState)
    ensures j.src !in st.files ==> r == st.(error := Some(FileNotFound(j.src)))
    ensures j.src in st.files ==>
      && r.error == st.error
      && r.dirs == st.dirs + {Parent(j.dest)}
      && r.files == st.files[j.dest := Cleaned(st.files[j.src], j.rf, clean, sub)]
  {
    if j.src !in st.files then st.(error := Some(FileNotFound(j.src)))
    else RegressState(st.files[j.dest := Cleaned(st.files[j.src], j.rf, clean, sub)], st.dirs + {Parent(j.dest)}, st.error)
  }

  /** Copying the files in order, defined on the last one; nothing more happens after an error. */
  function CopyAll(st: RegressState, js: seq<Job>, clean: map<string, seq<Rule>>, sub: Substitute): RegressState
    decreases |js|
  {
    if js == [] then st
    else
      var prev := CopyAll(st, js[..|js| - 1], clean, sub);
      if prev.error.Some? then prev else CopyOne(prev, js[|js| - 1], clean, sub)
  }

  /**
   * `make_regress_files(regress_files, out_dir, regress_dir, clean)`: both
   * directories fall back on the test's environment; a missing one raises
   * TypeError before anything is written.
   */
  function MakeRegressSpec(files: map<string, seq<string>>, dirs: set<string>, rfs: seq<string>,
                           outDir: Option<string>, regressDir: Option<string>,
                           clean: Option<map<string, seq<Rule>>>, environ: map<string, string>,
                           sub: Substitute): RegressState
  {
    var rules := if clean.Some? then clean.value else map[];
    var reg := OrEnv(regressDir, environ, "TESTR_REGRESS_DIR");
    var out := OrEnv(outDir, environ, "TESTR_OUT_DIR");
    if reg.None? || out.None? then RegressState(files, dirs, Some(NoPath))
    else CopyAll(RegressState(files, dirs + {reg.value}, None), Jobs(rfs, out.value, reg.value), rules, sub)
  }

  /** The inner loop: `lines = [re.sub(sub_in, sub_out, x) for x in lines]` for each rule. */
  method Clean(lines: seq<string>, rules: seq<Rule>, sub: Substitute) returns (r: seq<string>)
    ensures r == CleanLines(lines, rules, sub)
  {
    r := lines;
    for k := 0 to |rules|
      invariant r == CleanLines(lines, rules[..k], sub)
    {
      assert rules[..k + 1][..k] == rules[..k] && rules[..k + 1][k] == rules[k];
      var rule := rules[k];
      r := seq(|r|, i requires 0 <= i < |r| => sub(rule.pattern, rule.replacement, r[i]));
    }
    assert rules[..|rules|] == rules;
  }

  /** `make_regress_files(...)` on the file store. */
  method MakeRegressFiles(fs: FileStore, rfs: seq<string>, outDir: Option<string>, regressDir: Option<string>,
                          clean: Option<map<string, seq<Rule>>>, environ: map<string, string>,
                          sub: Substitute)
    returns (error: Option<Error>)
    modifies fs
    ensures var spec := MakeRegressSpec(old(fs.files), old(fs.dirs), rfs, outDir, regressDir, clean, environ, sub);
      fs.files == spec.files && fs.dirs == spec.dirs && error == spec.error
  {
    var rules := if clean.Some? then clean.value else map[];
    var reg := OrEnv(regressDir, environ, "TESTR_REGRESS_DIR");
    var out := OrEnv(outDir, environ, "TESTR_OUT_DIR");
    if reg.None? || out.None? {
      return Some(NoPath);
    }
    if reg.value !in fs.dirs {
      fs.MakeDirs(reg.value);
    }
    assert fs.dirs == old(fs.dirs) + {reg.value};
    error := CopyJobs(fs, Jobs(rfs, out.value, reg.value), rules, sub);
  }

  /** The loop of `make_regress_files` over the regression files, stopping at the first error. */
  method CopyJobs(fs: FileStore, js: seq<Job>, rules: map<string, seq<Rule>>, sub: Substitute)
    returns (error: Option<Error>)
    modifies fs
    ensures var r := CopyAll(RegressState(old(fs.files), old(fs.dirs), None), js, rules, sub);
      fs.files == r.files && fs.dirs == r.dirs && error == r.error
  {
    ghost var st0 := RegressState(fs.files, fs.dirs, None);
    error := None;
    for i := 0 to |js|
      invariant CopyAll(st0, js[..i], rules, sub) == RegressState(fs.files, fs.dirs, None)
      invariant error.None?
    {
      CopyAllSnoc(st0, js, i, rules, sub);
      error := CopyFile(fs, js[i], rules, sub);
      if error.Some? {
        CopyAllStopsAtError(st0, js, i + 1, rules, sub);
        return;
      }
    }
    assert js[..|js|] == js;
  }

  /** The body of the loop for one file. */
  method CopyFile(fs: FileStore, job: Job, rules: map<string, seq<Rule>>, sub: Substitute)
    returns (error: Option<Error>)
    modifies fs
    ensures var r := CopyOne(RegressState(old(fs.files), old(fs.dirs), None), job, rules, sub);
      fs.files == r.files && fs.dirs == r.dirs && error == r.error
  {
    if job.src !in fs.files {
      return Some(FileNotFound(job.src));
    }
    var lines := fs.files[job.src];
    if job.rf in rules {
      lines := Clean(lines, rules[job.rf], sub);
    }
    if Parent(job.dest) !in fs.dirs {
      fs.MakeDirs(Parent(job.dest));
    }
    assert fs.dirs == old(fs.dirs) + {Parent(job.dest)};
    fs.Write(job.dest, lines);
    error := None;
  }

  lemma CopyAllSnoc(st: RegressState, js: seq<Job>, i: nat, clean: map<string, seq<Rule>>, sub: Substitute)
    requires i < |js|
    ensures var prev := CopyAll(st, js[..i], clean, sub);
      CopyAll(st, js[..i + 1], clean, sub) == if prev.error.Some? then prev else CopyOne(prev, js[i], clean, sub)
  {
    assert js[..i + 1][..i] == js[..i];
  }

  /** Once a copy fails, the later files are not looked at. */
  lemma {:induction false} CopyAllStopsAtError(st: RegressState, js: seq<Job>, k: nat,
                                               clean: map<string, seq<Rule>>, sub: Substitute)
    requires k <= |js| && CopyAll(st, js[..k], clean, sub).error.Some?
    ensures CopyAll(st, js, clean, sub) == CopyAll(st, js[..k], clean, sub)
    decreases |js| - k
  {
    if k < |js| {
      assert js[..|js| - 1][..k] == js[..k];
      CopyAllStopsAtError(st, js[..|js| - 1], k, clean, sub);
    } else {
      assert js[..k] == js;
    }
  }

  /** `p` is not the destination of any job. */
  predicate NotADest(p: string, js: seq<Job>) {
    forall i :: 0 <= i < |js| ==> p != js[i].dest
  }

  /** Every job's source exists. */
  predicate AllSources(files: map<string, seq<string>>, js: seq<Job>) {
    forall i :: 0 <= i < |js| ==> js[i].src in files
  }

  /** No job writes where a job reads. */
  predicate Separate(js: seq<Job>) {
    forall i :: 0 <= i < |js| ==> NotADest(js[i].src, js)
  }

  /** The `k`th job, unless a later one has the same destination. */
  predicate LastWithDest(js: seq<Job>, k: int) {
    0 <= k < |js| && forall i :: k < i < |js| ==> js[i].dest != js[k].dest
  }

  /** A path that is no job's destination keeps what it held: copying changes nothing else. */
  lemma {:induction false} CopyAllFrame(st: RegressState, js: seq<Job>, clean: map<string, seq<Rule>>,
                                        sub: Substitute, p: string)
    requires NotADest(p, js)
    ensures var r := CopyAll(st, js, clean, sub);
      (p in r.files <==> p in st.files) && (p in st.files ==> r.files[p] == st.files[p])
    decreases |js|
  {
    if js != [] {
      var pre := js[..|js| - 1];
      assert NotADest(p, pre) by {
        assert forall i :: 0 <= i < |pre| ==> pre[i] == js[i];
      }
      CopyAllFrame(st, pre, clean, sub, p);
    }
  }

  lemma SeparatePrefix(js: seq<Job>)
    requires js != [] && Separate(js)
    ensures Separate(js[..|js| - 1]) && NotADest(js[|js| - 1].src, js[..|js| - 1])
  {
    var pre := js[..|js| - 1];
    assert forall i :: 0 <= i < |pre| ==> pre[i] == js[i];
    forall i | 0 <= i < |pre| ensures NotADest(pre[i].src, pre) {
      assert NotADest(js[i].src, js);
    }
    assert NotADest(js[|js| - 1].src, js);
  }

  /** With sources and destinations apart, the copy raises iff some source is missing. */
  lemma {:induction false} CopyAllError(st: RegressState, js: seq<Job>, clean: map<string, seq<Rule>>, sub: Substitute)
    requires st.error.None? && Separate(js)
    ensures CopyAll(st, js, clean, sub).error.None? <==> AllSources(st.files, js)
    decreases |js|
  {
    if js != [] {
      var pre := js[..|js| - 1];
      assert forall i :: 0 <= i < |pre| ==> pre[i] == js[i];
      SeparatePrefix(js);
      CopyAllError(st, pre, clean, sub);
      CopyAllFrame(st, pre, clean, sub, js[|js| - 1].src);
    }
  }

  /** After a copy without error every destination exists, in a directory that exists. */
  lemma {:induction false} CopyAllWrites(st: RegressState, js: seq<Job>, clean: map<string, seq<Rule>>, sub: Substitute)
    ensures var r := CopyAll(st, js, clean, sub);
      r.error.None? ==> forall i :: 0 <= i < |js| ==> js[i].dest in r.files && Parent(js[i].dest) in r.dirs
    decreases |js|
  {
    if js != [] {
      var pre := js[..|js| - 1];
      assert forall i :: 0 <= i < |pre| ==> pre[i] == js[i];
      CopyAllWrites(st, pre, clean, sub);
    }
  }

  /**
   * With sources and destinations apart, after a copy without error each
   * destination holds its source's original lines cleaned by the file's own
   * rules (the last job wins where two share a destination).
   */
  lemma {:induction false} CopyAllContents(st: RegressState, js: seq<Job>, clean: map<string, seq<Rule>>,
                                           sub: Substitute, k: nat)
    requires Separate(js) && LastWithDest(js, k)
    requires CopyAll(st, js, clean, sub).error.None?
    ensures js[k].src in st.files && js[k].dest in CopyAll(st, js, clean, sub).files
    ensures CopyAll(st, js, clean, sub).files[js[k].dest] == Cleaned(st.files[js[k].src], js[k].rf, clean, sub)
    decreases |js|
  {
    var pre := js[..|js| - 1];
    assert forall i :: 0 <= i < |pre| ==> pre[i] == js[i];
    SeparatePrefix(js);
    if k < |js| - 1 {
      assert LastWithDest(pre, k);
      CopyAllContents(st, pre, clean, sub, k);
    } else {
      CopyAllFrame(st, pre, clean, sub, js[k].src);
    }
  }

  /**
   * `make_regress_files` with both directories known and no file written
   * where one is read: the regression directory exists afterwards; the copy
   * raises iff some `out_dir/rf` is missing; otherwise each `rf` lands at
   * `regress_dir/rf`, in a directory that exists, holding the source's lines
   * cleaned by its own rules, and no other file changes.
   */
  lemma MakeRegressResult(files: map<string, seq<string>>, dirs: set<string>, rfs: seq<string>,
                          outDir: string, regressDir: string,
                          clean: map<string, seq<Rule>>, sub: Substitute)
    requires Separate(Jobs(rfs, outDir, regressDir))
    ensures var r := MakeRegressSpec(files, dirs, rfs, Some(outDir), Some(regressDir), Some(clean), map[], sub);
      && regressDir in r.dirs
      && (r.error.None? <==> forall i :: 0 <= i < |rfs| ==> PathJoin(outDir, rfs[i]) in files)
      && (r.error.None? ==> forall i :: 0 <= i < |rfs| ==>
            PathJoin(regressDir, rfs[i]) in r.files && Parent(PathJoin(regressDir, rfs[i])) in r.dirs)
      && (r.error.None? ==> forall k :: LastWithDest(Jobs(rfs, outDir, regressDir), k) ==>
            r.files[PathJoin(regressDir, rfs[k])] == Cleaned(files[PathJoin(outDir, rfs[k])], rfs[k], clean, sub))
      && (forall p :: p in files && NotADest(p, Jobs(rfs, outDir, regressDir)) ==> p in r.files && r.files[p] == files[p])
  {
    var js := Jobs(rfs, outDir, regressDir);
    var st := RegressState(files, dirs + {regressDir}, None);
    CopyAllError(st, js, clean, sub);
    CopyAllWrites(st, js, clean, sub);
    CopyAllDirs(st, js, clean, sub);
    var r := CopyAll(st, js, clean, sub);
    if r.error.None? {
      forall k | LastWithDest(js, k)
        ensures r.files[PathJoin(regressDir, rfs[k])] == Cleaned(files[PathJoin(outDir, rfs[k])], rfs[k], clean, sub)
      {
        CopyAllContents(st, js, clean, sub, k);
      }
    }
    forall p | p in files && NotADest(p, js) ensures p in r.files && r.files[p] == files[p] {
      CopyAllFrame(st, js, clean, sub, p);
    }
  }

  /** Copying never removes a directory. */
  lemma {:induction false} CopyAllDirs(st: RegressState, js: seq<Job>, clean: map<string, seq<Rule>>, sub: Substitute)
    ensures st.dirs <= CopyAll(st, js, clean, sub).dirs
    decreases |js|
  {
    if js != [] {
      CopyAllDirs(st, js[..|js| - 1], clean, sub);
    }
  }

  // ---------------------------------------------------------------------
  // check_files

  /** `re.search(pattern, line, re.IGNORECASE)`: whether the pattern matches in the line, ignoring case. */
  type Search = (string, string) -> bool

  /** The allow pattern always added: a line of the bash prompt `Bash-HH:MM:SS>`. */
  const BashPrompt := "^Bash-\\d\\d"

  /** A list of patterns the caller owns. */
  class PatternList {
    var items: seq<string>

    constructor(items: seq<string>)
      ensures this.items == items
    {
      this.items := items;
    }

    /** `list.append(x)`. */
    method Append(x: string)
      modifies this
      ensures items == old(items) + [x]
    {
      items := items + [x];
    }
  }

  /** Some allow pattern matches the line. */
  predicate Allowed(line: string, allows: seq<string>, search: Search) {
    exists a :: 0 <= a < |allows| && search(allows[a], line)
  }

  /** The check matches the line and no allow pattern overrides it. */
  predicate Flagged(check: string, line: string, allows: seq<string>, search: Search) {
    search(check, line) && !Allowed(line, allows, search)
  }

  /** `'{!r} matched at {}:{} :: {}'.format(check, filename, index, line.strip())`. */
  function Message(check: string, file: string, index: nat, line: string): string {
    PackagesSkip.Repr(check) + " matched at " + file + ":" + NatToString(index) + " :: " + Strip(line)
  }

  /** The messages for one check over the lines of one file, in line order. */
  function LineMatches(check: string, file: string, lines: seq<string>, allows: seq<string>, search: Search)
    : (r: seq<string>)
    ensures r == [] <==> forall i :: 0 <= i < |lines| ==> !Flagged(check, lines[i], allows, search)
    decreases |lines|
  {
    if lines == [] then []
    else
      var n := |lines| - 1;
      assert forall i :: 0 <= i < n ==> lines[..n][i] == lines[i];
      LineMatches(check, file, lines[..n], allows, search)
        + (if Flagged(check, lines[n], allows, search) then [Message(check, file, n, lines[n])] else [])
  }

  /** The messages for every check over one file, check by check. */
  function CheckMatches(checks: seq<string>, file: string, lines: seq<string>, allows: seq<string>, search: Search)
    : (r: seq<string>)
    ensures r == [] <==> forall c, i :: 0 <= c < |checks| && 0 <= i < |lines| ==>
                           !Flagged(checks[c], lines[i], allows, search)
    decreases |checks|
  {
    if checks == [] then []
    else
      var n := |checks| - 1;
      assert forall c :: 0 <= c < n ==> checks[..n][c] == checks[c];
      CheckMatches(checks[..n], file, lines, allows, search) + LineMatches(checks[n], file, lines, allows, search)
  }

  /** The messages for every file, file by file; reading a file may raise. */
  function FileMatches(names: seq<string>, checks: seq<string>, allows: seq<string>, outDir: Option<string>,
                       files: map<string, seq<string>>, search: Search): Result<seq<string>>
    decreases |names|
  {
    if names == [] then Ok([])
    else
      var n := |names| - 1;
      match FileMatches(names[..n], checks, allows, outDir, files, search)
      case Err(e) => Err(e)
      case Ok(prev) =>
        if outDir.None? then Err(NoPath)
        else
          var path := PathJoin(outDir.value, names[n]);
          if path !in files then Err(FileNotFound(path))
          else Ok(prev + CheckMatches(checks, names[n], files[path], allows, search))
  }

  /**
   * `check_files(filename, checks, allows, out_dir)`: the files are those
   * the glob matches; the allow patterns are the caller's plus the bash
   * prompt.
   */
  function CheckFilesSpec(pattern: string, checks: seq<string>, allows: seq<string>, outDir: Option<string>,
                          environ: map<string, string>, files: map<string, seq<string>>,
                          glob: string -> seq<string>, search: Search): Option<Error>
  {
    match FileMatches(glob(pattern), checks, allows + [BashPrompt], OrEnv(outDir, environ, "TESTR_OUT_DIR"), files, search)
    case Err(e) => Some(e)
    case Ok(ms) => if ms == [] then None else Some(ValueError("Found matches in check_files:\n" + Join(ms, "\n")))
  }

  /** One file, one check: the loop over its lines. */
  method ScanLines(check: string, file: string, lines: seq<string>, allows: seq<string>, search: Search)
    returns (ms: seq<string>)
    ensures ms == LineMatches(check, file, lines, allows, search)
  {
    ms := [];
    for i := 0 to |lines|
      invariant ms == LineMatches(check, file, lines[..i], allows, search)
    {
      assert lines[..i + 1][..i] == lines[..i] && lines[..i + 1][i] == lines[i];
      if search(check, lines[i]) && !Allowed(lines[i], allows, search) {
        ms := ms + [Message(check, file, i, lines[i])];
      }
    }
    assert lines[..|lines|] == lines;
  }

  /** One file: the loop over the checks. */
  method ScanChecks(checks: seq<string>, file: string, lines: seq<string>, allows: seq<string>, search: Search)
    returns (ms: seq<string>)
    ensures ms == CheckMatches(checks, file, lines, allows, search)
  {
    ms := [];
    for c := 0 to |checks|
      invariant ms == CheckMatches(checks[..c], file, lines, allows, search)
    {
      assert checks[..c + 1][..c] == checks[..c] && checks[..c + 1][c] == checks[c];
      var more := ScanLines(checks[c], file, lines, allows, search);
      ms := ms + more;
    }
    assert checks[..|checks|] == checks;
  }

  /**
   * `check_files(...)`. The bash prompt is appended to the caller's list of
   * allows in place (to a fresh list when the caller passed none).
   */
  method CheckFiles(pattern: string, checks: seq<string>, allows: PatternList?, outDir: Option<string>,
                    environ: map<string, string>, fs: FileStore, glob: string -> seq<string>, search: Search)
    returns (error: Option<Error>)
    modifies allows
    ensures allows != null ==> allows.items == old(allows.items) + [BashPrompt]
    ensures error == CheckFilesSpec(pattern, checks, if allows == null then [] else old(allows.items),
                                    outDir, environ, fs.files, glob, search)
  {
    var list := allows;
    if list == null {
      list := new PatternList([]);
    }
    list.Append(BashPrompt);
    var allowed := list.items;
    var out := OrEnv(outDir, environ, "TESTR_OUT_DIR");
    var found := CollectMatches(glob(pattern), checks, allowed, out, fs.files, search);
    if found.Err? {
      return Some(found.error);
    }
    if found.value != [] {
      return Some(ValueError("Found matches in check_files:\n" + Join(found.value, "\n")));
    }
    error := None;
  }

  /** The loop of `check_files` over the globbed files, stopping at the first that cannot be read. */
  method CollectMatches(names: seq<string>, checks: seq<string>, allowed: seq<string>, out: Option<string>,
                        files: map<string, seq<string>>, search: Search)
    returns (r: Result<seq<string>>)
    ensures r == FileMatches(names, checks, allowed, out, files, search)
  {
    var matches: seq<string> := [];
    for n := 0 to |names|
      invariant FileMatches(names[..n], checks, allowed, out, files, search) == Ok(matches)
    {
      assert names[..n + 1][..n] == names[..n] && names[..n + 1][n] == names[n];
      if out.None? {
        FileMatchesStopsAtError(names, n + 1, checks, allowed, out, files, search);
        return Err(NoPath);
      }
      var path := PathJoin(out.value, names[n]);
      if path !in files {
        FileMatchesStopsAtError(names, n + 1, checks, allowed, out, files, search);
        return Err(FileNotFound(path));
      }
      var more := ScanChecks(checks, names[n], files[path], allowed, search);
      matches := matches + more;
    }
    assert names[..|names|] == names;
    r := Ok(matches);
  }

  lemma {:induction false} FileMatchesStopsAtError(names: seq<string>, k: nat, checks: seq<string>, allows: seq<string>,
                                                   outDir: Option<string>, files: map<string, seq<string>>, search: Search)
    requires k <= |names| && FileMatches(names[..k], checks, allows, outDir, files, search).Err?
    ensures FileMatches(names, checks, allows, outDir, files, search) == FileMatches(names[..k], checks, allows, outDir, files, search)
    decreases |names| - k
  {
    if k < |names| {
      assert names[..|names| - 1][..k] == names[..k];
      FileMatchesStopsAtError(names[..|names| - 1], k, checks, allows, outDir, files, search);
    } else {
      assert names[..k] == names;
    }
  }

  /** Every globbed file can be read. */
  predicate Readable(names: seq<string>, outDir: string, files: map<string, seq<string>>) {
    forall n :: 0 <= n < |names| ==> PathJoin(outDir, names[n]) in files
  }

  /** A file holds a line that some check flags. */
  predicate HasFlagged(name: string, checks: seq<string>, allows: seq<string>, outDir: string,
                       files: map<string, seq<string>>, search: Search)
    requires PathJoin(outDir, name) in files
  {
    var lines := files[PathJoin(outDir, name)];
    exists c, i :: 0 <= c < |checks| && 0 <= i < |lines| && Flagged(checks[c], lines[i], allows, search)
  }

  /**
   * When every file can be read, scanning fails iff some file holds a
   * flagged line.
   */
  lemma {:induction false} FileMatchesEmptyIff(names: seq<string>, checks: seq<string>, allows: seq<string>,
                                               outDir: string, files: map<string, seq<string>>, search: Search)
    requires Readable(names, outDir, files)
    ensures FileMatches(names, checks, allows, Some(outDir), files, search).Ok?
    ensures FileMatches(names, checks, allows, Some(outDir), files, search).value == [] <==>
      forall n :: 0 <= n < |names| ==> !HasFlagged(names[n], checks, allows, outDir, files, search)
    decreases |names|
  {
    if names != [] {
      var k := |names| - 1;
      var pre := names[..k];
      assert forall n :: 0 <= n < k ==> pre[n] == names[n];
      FileMatchesEmptyIff(pre, checks, allows, outDir, files, search);
      var prev := FileMatches(pre, checks, allows, Some(outDir), files, search).value;
      FileMatchesSnoc(names, checks, allows, outDir, files, search, prev);
      CheckMatchesEmptyIff(names[k], checks, allows, outDir, files, search);
      var cm := CheckMatches(checks, names[k], files[PathJoin(outDir, names[k])], allows, search);
      assert prev + cm == [] <==> prev == [] && cm == [];
      if (forall n :: 0 <= n < k ==> !HasFlagged(pre[n], checks, allows, outDir, files, search))
         && !HasFlagged(names[k], checks, allows, outDir, files, search) {
        forall n | 0 <= n < |names| ensures !HasFlagged(names[n], checks, allows, outDir, files, search) {
          if n < k { assert pre[n] == names[n]; }
        }
      }
    }
  }

  lemma FileMatchesSnoc(names: seq<string>, checks: seq<string>, allows: seq<string>,
                        outDir: string, files: map<string, seq<string>>, search: Search, prev: seq<string>)
    requires names != [] && PathJoin(outDir, names[|names| - 1]) in files
    requires FileMatches(names[..|names| - 1], checks, allows, Some(outDir), files, search) == Ok(prev)
    ensures var last := names[|names| - 1];
      FileMatches(names, checks, allows, Some(outDir), files, search)
        == Ok(prev + CheckMatches(checks, last, files[PathJoin(outDir, last)], allows, search))
  {
  }

  lemma CheckMatchesEmptyIff(name: string, checks: seq<string>, allows: seq<string>,
                             outDir: string, files: map<string, seq<string>>, search: Search)
    requires PathJoin(outDir, name) in files
    ensures CheckMatches(checks, name, files[PathJoin(outDir, name)], allows, search) == [] <==>
      !HasFlagged(name, checks, allows, outDir, files, search)
  {
  }

  /**
   * `check_files` raises ValueError iff some line of a globbed file matches
   * a check and no allow pattern (the bash prompt among them); with nothing
   * flagged it returns normally.
   */
  lemma CheckFilesRaisesIff(pattern: string, checks: seq<string>, allows: seq<string>, outDir: string,
                            files: map<string, seq<string>>, glob: string -> seq<string>, search: Search)
    requires Readable(glob(pattern), outDir, files)
    ensures var e := CheckFilesSpec(pattern, checks, allows, Some(outDir), map[], files, glob, search);
      && (e.None? || e.value.ValueError?)
      && (e.Some? <==> exists n :: 0 <= n < |glob(pattern)| &&
                         HasFlagged(glob(pattern)[n], checks, allows + [BashPrompt], outDir, files, search))
  {
    FileMatchesEmptyIff(glob(pattern), checks, allows + [BashPrompt], outDir, files, search);
  }

  /** A bash prompt line is never flagged, whatever the checks. */
  lemma PromptNeverFlagged(check: string, line: string, allows: seq<string>, search: Search)
    requires search(BashPrompt, line)
    ensures !Flagged(check, line, allows + [BashPrompt], search)
  {
    assert (allows + [BashPrompt])[|allows|] == BashPrompt;
  }
}
