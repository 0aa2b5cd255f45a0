# testr, modelled in Dafny

`testr` is the test orchestrator of the Ska runtime environment. For each
package under a `packages/` directory it collects the test scripts, filters
them with include and exclude globs and per-package skip rules, copies them
to a per-run output directory, runs them one by one, records each test's
status, and writes a summary table and an `all_tests.json` report that
merges the scripts' own JUnit XML reports with records synthesised for the
others. Inside a package, `testr()` and `test()` assemble the pytest command
line from keyword arguments and `TESTR_*` environment variables, and
`get_full_version()` tags the release version with git information. A
`setup.py` helper runs pytest as the `test` command and duplicates package
metadata for namespace packages.

The model covers the decision and bookkeeping logic of these programs. It
leaves process execution, the file system, the clock and parsing to
parameters of the model.

| file | module | models |
|---|---|---|
| common.dfy | `Common` | the Python string, path and ordering operations the code relies on (`str.isspace`, `str.strip`, `str.split`, `str.join`, `str.lower`, `os.path.join`, `os.path.normpath`, `os.path.abspath`, `pathlib` paths as a root and parts, `sorted`) |
| glob.dfy | `Glob` | `fnmatch` for `*`, `?` and literal characters |
| packages.dfy | `Packages` | `include_test_file` and `collect_tests` of `testr/packages.py` |
| packages_skip.dfy | `PackagesSkip` | the skip rules and `check_skip_test` |
| packages_run.dfy | `PackagesRun` | `run_tests`: the in-place status and time updates of one package's tests |
| packages_report.dfy | `PackagesReport` | `box_output`, `_parse_xml_testcase`'s status, `_rel_path_if_descendant` and `write_log` |
| packages_regress.dfy | `PackagesRegress` | `make_regress_files` and `check_files` |
| packages_options.dfy | `PackagesOptions` | `process_opt` and the test-spec file; the working directory, the version id and the files that exist (keyed by absolute path) are parameters |
| legacy_run_tests.dfy | `LegacyRunTests` | the older stand-alone `run_tests.py` |
| runner.dfy | `Runner` | `testr()`, `test()` and `get_full_version()` of `testr/runner.py` |
| test_helper.dfy | `TestHelper` | the skip predicates of `testr/test_helper.py`, the `os.path.expandvars` and `os.path.expanduser` the path checks apply, and the module attributes skip rules name |
| setup_helper.dfy | `SetupHelper` | `PyTest.run_tests` and `duplicate_package_info` of `testr/setup_helper.py` |

Where the code works by changing state it is modelled by methods: the
options object, the list of test records that `run_tests` updates in
place (an array), the file store of the regression helpers, the list and
dictionary that `duplicate_package_info` extends, and the argument list
that `test()` builds step by step. Each method is proved against a
specification function, and the source's promises are lemmas about that
function. The rest is functions and lemmas.

Where a finding below shows the code to be wrong, the operation keeps the
behaviour of the code as written. The corrected definition stands beside it
with its intended property proved, together with a lemma saying where the
two agree, so that each property can be read against the code it is about.

## Model

| member | source | states |
|---|---|---|
| Common.Lower | testr/runner.py:121 | `str.lower` keeps the length and lowers each character |
| Common.LStrip | run_tests.py:88 | stripping on the left drops exactly the leading whitespace |
| Common.RStrip | run_tests.py:88 | stripping on the right drops exactly the trailing whitespace |
| Common.Strip | run_tests.py:88 | `str.strip` leaves no whitespace at either end and never lengthens the text |
| Common.Split | run_tests.py:88 | `str.split` at one character gives at least one piece and no piece holds the separator |
| Common.SplitCount | run_tests.py:88 | there is one piece more than there are separators |
| Common.JoinSplit | run_tests.py:88 | joining the pieces with the separator gives back the text |
| Common.SplitJoin | testr/runner.py:226 | splitting pieces joined by a separator they do not hold gives back the pieces |
| Common.SplitWhitespaceWords | testr/runner.py:129 | `str.split()` gives nonempty pieces free of whitespace |
| Common.SplitWhitespaceCons | testr/runner.py:129 | a leading word is the first piece and the rest is split on |
| Common.NatToString | testr/runner.py:227 | a count is written as at least one decimal digit |
| Common.ParseNatToString | testr/runner.py:227 | reading the decimal text back gives the count |
| Common.PathJoin | run_tests.py:87 | `os.path.join` keeps an absolute second part alone and otherwise ends with the second part |
| Common.LeadingSlashes | run_tests.py:105-106 | `os.path.normpath` keeps no slash for a relative path, two for a path starting with exactly two, and one otherwise |
| Common.NormComps | run_tests.py:105-106 | the components `normpath` keeps are components of the path, none empty or `.`, with `..` only in a leading run and never below the root |
| Common.NormPath | run_tests.py:105-106 | a normalised path is never empty and stays absolute when the path was |
| Common.AbsPath | run_tests.py:105-106 | `os.path.abspath` gives an absolute path when the working directory or the path is absolute |
| Common.NormCompsFixed | run_tests.py:105-106 | components already in normal form are kept as they are |
| Common.NormCompsLeadingEmpty | run_tests.py:105-106 | empty components in front change nothing |
| Common.NormPathIdempotent | run_tests.py:105-106 | normalising a normalised path changes nothing |
| Common.NormCompsClimbs | run_tests.py:105-106 | `..` removes the component before it: `/home/u/run/../out` keeps `home`, `u` and `out` |
| Common.WithSuffix | testr/packages.py:448-455 | replacing the suffix keeps the directory part and ends with the new suffix |
| Common.WithSuffixTrailingDot | testr/packages.py:448-455 | a name ending in a dot has no suffix, so `t.` becomes `t..xml` |
| Common.PureComps | testr/packages.py:673-678 | `pathlib` keeps exactly the components that are neither empty nor `.`, and keeps `..` |
| Common.ParsePath | testr/packages.py:673-674 | `Path(p)` has a root exactly when `p` starts with `/`, of at most two slashes, and its parts are the kept components of `p` |
| Common.PathStr | testr/packages.py:692 | `str` of a path is never empty |
| Common.JoinPath | testr/packages.py:675-678 | `a / b` is `b` when `b` has a root and otherwise appends the parts of `b` to those of `a` |
| Common.Slash | testr/packages.py:675-689 | joining a string reads it as a path first |
| Common.Child | testr/packages.py:675-678 | joining a name adds one part under the same root |
| Common.PathName | testr/packages.py:689 | `.name` is the last part, or empty for a path with no parts |
| Common.ParsedWellFormed | testr/packages.py:673-674 | a parsed path has a root of at most two slashes and parts that are plain names |
| Common.PathStrRoundTrip | testr/packages.py:673-692 | parsing the string form of a well-formed path gives the path back |
| Common.ParsePathStr | testr/packages.py:673-692 | `Path(str(Path(p)))` is `Path(p)` |
| Common.ParseDot | testr/packages.py:673 | `.` is the empty relative path |
| Common.ParseName | testr/packages.py:675-678 | a plain name parses as a single part |
| Common.SlashChild | testr/packages.py:675-678 | joining a plain name adds it as one part |
| Common.ChildStr | testr/packages.py:675-692 | spelled out, joining a name to a path with parts appends `/` and the name |
| Common.BelowTotal | run_tests.py:168 | the string order used by `sorted` compares any two different strings |
| Common.BelowTransitive | run_tests.py:168 | that order is transitive |
| Common.Sort | run_tests.py:168 | `sorted` gives an ordered permutation of its input |
| Common.SortedKeys | run_tests.py:168 | the sorted keys of a dictionary list every key once, in order |
| Common.MapSeq | testr/packages.py:141-160 | a list comprehension has one image per element, in order |
| Common.MapSeqSnoc | testr/packages.py:141-160 | mapping one more element appends its image |
| Common.AllOk | testr/packages.py:439-504 | a loop that stops at the first raising item yields, when none raises, every item's value in order, and otherwise the error of one of the items |
| TestHelper.WordRun | testr/test_helper.py:22 | the name after a `$` is the longest run of ASCII letters, digits and underscores |
| TestHelper.CloseBrace | testr/test_helper.py:22 | a `${` reference ends at the first `}` after it |
| TestHelper.VarRef | testr/test_helper.py:22 | a variable reference spans at least the `$` and one more character and stays inside the text |
| TestHelper.ExpandVars | testr/test_helper.py:22 | `os.path.expandvars` leaves a path without `$` unchanged |
| TestHelper.ExpandVarsName | testr/test_helper.py:22 | `$name` followed by a character that cannot continue the name becomes the variable's value when it is set and stays as written when it is not |
| TestHelper.ExpandVarsBraced | testr/test_helper.py:22 | `${name}` becomes the variable's value when it is set and stays as written when it is not |
| TestHelper.RStripSlash | testr/test_helper.py:22 | stripping trailing slashes from a home leaves a prefix of it that does not end in `/` |
| TestHelper.SlashFrom | testr/test_helper.py:22 | the user part of `~user/rest` ends at the first `/` after the tilde, or at the end |
| TestHelper.ExpandUser | testr/test_helper.py:22 | `os.path.expanduser` leaves a path without a leading `~` unchanged, and a replaced `~` or `~user` keeps the rest of the path from its first `/` on |
| TestHelper.ExpandUserHome | testr/test_helper.py:22 | `~/rest` becomes `$HOME/rest` when `HOME` is set and does not end in `/` |
| TestHelper.HasPaths | testr/test_helper.py:16-27 | true exactly when every given path, after `$VAR` and `~` expansion, exists; so true for no paths |
| TestHelper.HasDirs | testr/test_helper.py:30-41 | true exactly when every given path, after `$VAR` and `~` expansion, exists and is a directory |
| TestHelper.HasPathsVariable | testr/test_helper.py:16-27 | a path made of a set variable and a `/`-led rest with no other reference exists exactly when the variable's value followed by the rest does, as in `has_paths('$SYBASE/lib')` |
| TestHelper.HasDirsImpliesHasPaths | testr/test_helper.py:16-41 | whenever `has_dirs` holds for some paths, `has_paths` holds for them too |
| TestHelper.IsLinux | testr/test_helper.py:52-53 | `is_linux` holds only on a system named neither `Windows` nor `Darwin` |
| TestHelper.IsMac | testr/test_helper.py:48-49 | `is_mac` excludes `is_linux` and a system named `Windows` |
| TestHelper.IsWindows | testr/test_helper.py:44-45 | `is_windows` excludes `is_mac` and `is_linux` |
| TestHelper.PlatformsExclusive | testr/test_helper.py:44-53 | at most one of `is_windows`, `is_mac` and `is_linux` holds |
| TestHelper.HasSybase | testr/test_helper.py:56-73 | false when `SYBASE` or `SYBASE_OCS` is unset; otherwise true exactly when the library under those two directories exists |
| TestHelper.OnHeadNetwork | testr/test_helper.py:76-93 | a failed host lookup gives false; the result is true exactly when the address is 131.142.52.x or 131.142.184.x; an address with three or more dot-separated parts never raises |
| TestHelper.Lookup | testr/test_helper.py:6-13 | `getattr` on the module: a check found by name carries that name; `Path` is the class imported from `pathlib`; `sys`, `os`, `socket` and `platform` are the imported modules |
| TestHelper.LookupFindsEveryCheck | testr/test_helper.py:12-13 | every exported check is found under its own name |
| TestHelper.Call | testr/packages.py:202-203 | the path checks return their verdict on the arguments; any other check raises TypeError when given arguments |
| TestHelper.CallAttr | testr/packages.py:203 | calling a check gives the check's answer; calling `Path` gives a path object, which is true; calling a module raises TypeError |
| TestHelper.Is32Bit | testr/test_helper.py:96-97 | a build with the `sys.maxsize` of a 32-bit word counts as 32-bit, one with that of a 64-bit word does not |
| Glob.StarMatchesAll | testr/packages.py:194 | the pattern `*` matches every test file name |
| Glob.StarSuffixIsPrefixMatch | testr/packages.py:111-112 | a pattern with `*` appended matches a path exactly when the pattern matches some prefix of it |
| Glob.LiteralPrefix | testr/packages.py:111-112 | a pattern that begins with a wildcard-free part matches exactly the names that begin with that part and whose remainder matches the rest |
| Glob.StarLiteralSuffix | testr/packages.py:194 | `*` followed by a wildcard-free suffix matches exactly the names that end with the suffix |
| Glob.StarLiteralStar | testr/packages.py:194 | `*lit*` with a wildcard-free `lit` matches exactly the names in which `lit` occurs |
| Packages.AnyPrefixMatch | testr/packages.py:111-112 | true exactly when some stripped pattern with `*` appended matches the path |
| Packages.AnyPrefixMatchIsPrefix | testr/packages.py:111-112 | a pattern list matches a path exactly when one of its stripped patterns matches some prefix of the path |
| Packages.IncludeTestFile | testr/packages.py:109-114 | a test is included exactly when some stripped include pattern followed by `*` matches `package/file` and no exclude pattern does; no include pattern includes nothing |
| Packages.IncludeIsPrefixFilter | testr/packages.py:109-114 | a test is included exactly when a prefix of `package/file` matches some include pattern and no prefix matches any exclude pattern |
| Packages.IncludeIgnoresPatternOrder | testr/packages.py:109-114 | the inclusion verdict depends only on which patterns are given, not on their order or repetition |
| Packages.SamePatternsSameAnswer | testr/packages.py:111-112 | two pattern lists with the same members give the same answer for every path |
| Packages.StripStar | testr/packages.py:111 | stripping the default pattern `*` leaves it unchanged |
| Packages.DefaultIncludesEverything | testr/packages.py:109-114 | with the default include pattern `*` and no excludes, every test file is included |
| Packages.CollectFilesOrder | testr/packages.py:138-139 | the collected files are the sorted `test_*` scripts then the sorted `post_*` scripts, and exactly the `.py`/`.sh` names of the listing with one of those prefixes |
| Packages.InterpreterOf | testr/packages.py:144-149 | `python` exactly for `.py` files, `bash` exactly for the other `.sh` files, none otherwise |
| Packages.NewRecord | testr/packages.py:142-158 | the record carries the file and package, is `not run` exactly when included and `----` exactly when not, has no start or stop time yet, and takes the interpreter from the suffix |
| Packages.PackageTests | testr/packages.py:137-160 | one record per collected file |
| Packages.PackageList | testr/packages.py:141-160 | the loop that appends one record per collected file builds the records of the files, in order |
| Packages.CollectTests | testr/packages.py:117-162 | one entry per directory under the packages root, each holding that package's records in collection order |
| PackagesOptions.Options.constructor | testr/packages.py:42-65 | the parsed options hold the given root and outputs directory as paths, and the test spec and pattern lists as given; the derived directories are not set yet |
| PackagesOptions.Absolute | testr/packages.py:673 | a path with a root is kept; the parts of any other follow those of the working directory, under its root |
| PackagesOptions.AbsoluteIdempotent | testr/packages.py:673 | from an absolute working directory, making a path absolute twice is making it absolute once |
| PackagesOptions.AbsoluteDot | testr/packages.py:673 | the default root `.` becomes the working directory itself, spelled the same when it was spelled the `pathlib` way |
| PackagesOptions.DefaultRootSpec | testr/packages.py:673-683 | with the default root, a spec given by a plain name is found when the working directory followed by `/` and the name exists |
| PackagesOptions.Stripped | testr/packages.py:693 | one stripped line per line of the file |
| PackagesOptions.KeepLines | testr/packages.py:694 | no more lines than given, each neither blank nor a `#` comment |
| PackagesOptions.KeepLinesAre | testr/packages.py:694 | exactly the stripped lines that are neither blank nor comments are kept |
| PackagesOptions.SpecLinesAre | testr/packages.py:692-694 | the spec lines are exactly the stripped lines of the file that are neither blank nor comments |
| PackagesOptions.SpecIncludesAre | testr/packages.py:696-701 | a spec line is an include pattern exactly when it is not blank and does not start with `-` |
| PackagesOptions.SpecExcludesAre | testr/packages.py:698-699 | `x` is an exclude pattern exactly when the line `-x` is in the spec |
| PackagesOptions.SpecSplitsLines | testr/packages.py:692-701 | every spec line becomes exactly one include or exclude pattern |
| PackagesOptions.SplitCounts | testr/packages.py:696-701 | the includes and excludes of non-blank spec lines add up to the number of lines |
| PackagesOptions.FinalIncludes | testr/packages.py:705 | the include list is never empty: `['*']` or the given includes followed by the spec's |
| PackagesOptions.DefaultInclude | testr/packages.py:703-705 | the includes are kept exactly when the command line or the spec named at least one include; otherwise `['*']` is used |
| PackagesOptions.AddSpecs | testr/packages.py:696-701 | the spec's includes and excludes are appended in order to the option lists; its frame lets no other option change |
| PackagesOptions.ReadSpecs | testr/packages.py:692-694 | the loop over the file yields exactly the spec lines |
| PackagesOptions.SpecPath | testr/packages.py:681-687 | the spec is found as given, else under the root; the path found exists; none exactly when it exists in neither place |
| PackagesOptions.ProcessOpt | testr/packages.py:667-705 | the root is made absolute; the packages, log and regress directories are derived from it and the version id; a spec that is absent or empty is ignored; a missing spec file exits with status 1; otherwise the spec's name extends the regress directory and its patterns extend the lists, `['*']` standing in for no includes |
| PackagesOptions.ProcessSpec | testr/packages.py:680-705 | with the directories set: an absent or empty spec changes only the include default; a spec found nowhere exits with status 1; a found one becomes the test spec, its name extends the regress directory and its file's patterns extend the lists |
| PackagesOptions.LoadSpec | testr/packages.py:688-705 | a found spec's file lines give the appended excludes and the final includes, and its name extends the regress directory |
| PackagesOptions.SpecLinesSnoc | testr/packages.py:692-694 | reading one more line appends it, stripped, exactly when it is neither blank nor a comment |
| PackagesOptions.SetDirs | testr/packages.py:672-678 | the root becomes absolute, the packages directory sits under it, and the log and regress directories are this run's version sub-directories of the outputs directory, made absolute |
| PackagesOptions.ApplySpec | testr/packages.py:688-701 | the found spec path becomes the test spec as `str` spells it, its name extends the regress directory, and its includes and excludes are appended to the option lists |
| PackagesOptions.DefaultToAll | testr/packages.py:703-705 | after the spec is read, an empty include list becomes `['*']` and any other is kept |
| PackagesSkip.EscapeChar | testr/packages.py:207 | every character is written as at least one character of the `repr` literal (weaker for non-printable characters, see Left out) |
| PackagesSkip.Repr | testr/packages.py:207 | the literal is quoted at both ends with the same quote, a double quote exactly when the argument holds a single quote and no double quote |
| PackagesSkip.UnescapeEscapeChar | testr/packages.py:207 | reading back one escaped character gives the character |
| PackagesSkip.UnescapeEscape | testr/packages.py:207 | reading back an escaped string gives the string |
| PackagesSkip.ReprRoundTrip | testr/packages.py:207 | the inside of each `repr` literal in the default reason reads back as the original argument |
| PackagesSkip.Reprs | testr/packages.py:207 | one `repr` literal per argument, in order |
| PackagesSkip.ReasonOf | testr/packages.py:207-209 | a rule without `reason` gives `check_func(args)`; a null reason gives None |
| PackagesSkip.FuncName | testr/packages.py:195 | the last word of `check_func`; IndexError exactly when it holds no word |
| PackagesSkip.EvalRule | testr/packages.py:193-205 | a blank `check_func` raises IndexError; a name that is no attribute of `test_helper` raises ValueError naming it; the name `Path` gives "skip" (or "do not skip" when negated); an imported module's name raises TypeError |
| PackagesSkip.Verdict | testr/packages.py:194 | a rule whose glob does not match the file says "do not skip"; one that matches evaluates its check |
| PackagesSkip.LowerNotHasNoSpace | testr/packages.py:201 | a three-letter spelling of "not" in any case holds no whitespace |
| PackagesSkip.EvalRuleNegation | testr/packages.py:201-205 | two spellings naming the same check, one negated and one not, give opposite answers or the same error |
| PackagesSkip.NotSpelling | testr/packages.py:195-201 | "not" in any case, a space and a name: the check named is the name, and it is negated while the bare name is not |
| PackagesSkip.NotSpellingName | testr/packages.py:195 | the last word of "not <name>" is the name |
| PackagesSkip.NotNegatesCheck | testr/packages.py:195-205 | writing "not" and a space before a check name negates the check; errors are the same either way |
| PackagesSkip.FirstFiring | testr/packages.py:191-212 | the scan names, when some rule fires, a rule that fires with every earlier verdict "do not skip"; with no rule named, every verdict says "do not skip" |
| PackagesSkip.FirstFiringAt | testr/packages.py:193-212 | after verdicts that all say "do not skip", the next verdict decides: its error, its index when it fires, or no skip when there is none |
| PackagesSkip.FirstFiringError | testr/packages.py:193-205 | an error of the scan is the error of some verdict, every earlier verdict saying "do not skip" |
| PackagesSkip.CheckSkipTest | testr/packages.py:186-212 | a reason comes from a rule whose glob matches the file and whose check says "skip" |
| PackagesSkip.Verdicts | testr/packages.py:193-194 | one verdict per rule, in file order |
| PackagesSkip.CheckSkipTestFirstFiring | testr/packages.py:193-209 | the first rule that fires decides, with its reason |
| PackagesSkip.CheckSkipTestNoneFires | testr/packages.py:211-212 | when no rule fires the test is not skipped |
| PackagesSkip.NoMatchingGlobNoSkip | testr/packages.py:193-194 | rules whose globs do not match the file neither skip it nor raise |
| PackagesSkip.CheckSkipTestError | testr/packages.py:193-205 | an error is the error raised by a rule whose glob matched, every earlier rule having said "do not skip" |
| PackagesRun.TestKey | testr/packages.py:247-249 | the variable of a record key begins with `TESTR_` |
| PackagesRun.TestEnv | testr/packages.py:247-249 | the environment names every test key with a `TESTR_` prefix and carries the file and package unchanged |
| PackagesRun.HistVars | testr/packages.py:285-291 | only the four history variables, and only those the process environment sets, with their values |
| PackagesRun.Command | testr/packages.py:276-282 | `./file` with no interpreter, `python file` for Python, the script text for bash; an error exactly when a bash script cannot be read |
| PackagesRun.PosixLaunchCarriesTestKeys | testr/packages.py:284-292 | on POSIX the launched environment carries every test key unchanged |
| PackagesRun.WindowsEnvironWins | testr/packages.py:262-268 | on Windows the process environment wins over a test key of the same name |
| PackagesRun.StepTest | testr/packages.py:241-299 | one turn of the loop changes only the status and the times; a skipped record keeps its times; a turn that raises leaves the status and the stop time as they were |
| PackagesRun.RunSpec | testr/packages.py:241-299 | the loop yields one record per test |
| PackagesRun.RunOne | testr/packages.py:241-299 | one turn of the loop does what the step specification says: the skip check, then the launch with the start time set before it and the stop time after it |
| PackagesRun.AnyIncluded | testr/packages.py:219 | true exactly when some test is not excluded |
| PackagesRun.RunLoop | testr/packages.py:241-299 | the records are updated in place as the loop specification says, and the exception that ended the loop is reported |
| PackagesRun.RunTests | testr/packages.py:215-299 | it bails out, touching nothing, exactly when every test is excluded; otherwise the records become the loop specification's, and it raises exactly when the specification does |
| PackagesRun.LoopStep | testr/packages.py:241-299 | one turn keeps the loop invariant, or the turn raised and the records are final |
| PackagesRun.SpliceRaised | testr/packages.py:241-299 | a run that raised leaves the rest of the list as it was |
| PackagesRun.RunSpecStep | testr/packages.py:241-299 | while nothing has raised, one more test is one more step |
| PackagesRun.AllSkippedUnchanged | testr/packages.py:219-226 | a list whose tests are all excluded is left as it is, with no error |
| PackagesRun.RunSpecFrozen | testr/packages.py:241-299 | after the test that raised, the remaining records are left as they were |
| PackagesRun.RunSpecPointwise | testr/packages.py:241-299 | a run without error updates each record on its own |
| PackagesRun.StepOutcome | testr/packages.py:241-299 | excluded tests are untouched; an included test is skipped by a rule with a non-empty reason or run; a run test gets both times and passes exactly when its command succeeds; a skipped test keeps the times it had; only the status and the times change |
| PackagesRun.NoTestLeftNotRun | testr/packages.py:241-299 | after a run that raised nothing, no test is left `not run` |
| PackagesRun.ScanEach | testr/packages.py:241-299 | after the loop each record is either as it was or what the loop body made of it |
| PackagesRun.SkippedCarryNoTimes | testr/packages.py:241-299 | tests collected without times that end up skipped carry no start or stop time, whether or not the run raised |
| PackagesReport.Repeat | testr/packages.py:101 | `n` copies of the character |
| PackagesReport.MaxLen | testr/packages.py:100 | the length of some line, and no line is longer |
| PackagesReport.PadRight | testr/packages.py:102-104 | the line in full, padded on the right with spaces to the field width and never cut |
| PackagesReport.BoxOutput | testr/packages.py:99-106 | `max` of no lengths raises ValueError exactly for no lines; otherwise a bar, one framed line per line, a bar and an empty line |
| PackagesReport.BoxIsRectangular | testr/packages.py:99-106 | the box is at least `min_width` wide and exactly wide enough for the longest line; every line but the last empty one has that width, and each framed line shows its line in full |
| PackagesReport.FramedLine | testr/packages.py:102-104 | a framed line has the box width and shows the line after `*** ` |
| PackagesReport.XmlCaseStatus | testr/packages.py:377-389 | `fail` exactly when a failure element is present, else `error` for an error, else `skipped` for a skip, else `pass` |
| PackagesReport.RelPathIfDescendant | testr/packages.py:401-420 | None exactly when the resulting path does not exist under the resolved root; `.` for the root itself; below the root, a path that joined to the root gives the resolved path; elsewhere the path as given |
| PackagesReport.RelPathJoinsBack | testr/packages.py:412-420 | for a path strictly below the root, the existence check is made on the resolved path itself |
| PackagesReport.StatusKeys | testr/packages.py:491 | the key looked up for a record is its status text lower-cased: `pass`, `fail`, `----` or `not run` |
| PackagesReport.BaseCase | testr/packages.py:486-492 | a synthesised case is named after the file and stamped with the test's start time, with no failure or skip message |
| PackagesReport.SynthCase | testr/packages.py:485-504 | KeyError exactly for a test still `not run`; a passed test gives a plain `pass` case, a failed one `fail` with the message "<file> failed", a skipped one `skipped` with "<file> skipped" |
| PackagesReport.Relabel | testr/packages.py:460-469 | one suite per parsed suite, renamed `<package>-<name>`, keeping its cases |
| PackagesReport.Wrap | testr/packages.py:473 | each suite, present, in order |
| PackagesReport.PackageSuites | testr/packages.py:437-510 | the loop over one package's tests gives the suites the package specification gives |
| PackagesReport.AccumulateErrSticks | testr/packages.py:439-505 | an error raised by earlier tests is the error of the whole loop |
| PackagesReport.AccumulateStopsAtError | testr/packages.py:439-505 | once a test raises, the loop over the package raises the same error |
| PackagesReport.NonXmlTests | testr/packages.py:474-505 | exactly the tests that left no XML report |
| PackagesReport.SynthAll | testr/packages.py:485-505 | when no test raises, one synthesised case per test, in order |
| PackagesReport.ExpectedStepXml | testr/packages.py:454-473 | a test with an XML report adds its relabelled suites and leaves the top suite alone |
| PackagesReport.ExpectedStepPlain | testr/packages.py:474-505 | a test without an XML report adds its case to the top suite, created for the first such test |
| PackagesReport.AccumulateShape | testr/packages.py:437-505 | the loop collects every XML suite in test order, plus one top suite, created for the first test without a report, holding the synthesised cases of all such tests in order |
| PackagesReport.MergeIntoSoleXmlSuite | testr/packages.py:507-508 | with exactly one XML suite and some test without a report, the package yields that one suite, its cases followed by the synthesised cases |
| PackagesReport.NoneTopWhenEveryTestHasXml | testr/packages.py:507-510 | when every test left an XML report the top suite is never created: one XML suite makes the merge raise TypeError, otherwise None is appended |
| PackagesReport.SoleXmlTestRaises | testr/packages.py:507-508 | a package whose only test left one XML suite makes `write_log` raise TypeError |
| PackagesReport.CloseCorrected | testr/packages.py:507-510 | with no top suite the XML suites are kept as they are; the top suite adds a suite only when it is not merged into a sole XML suite |
| PackagesReport.CloseKeepsCases | testr/packages.py:507-510 | closing a package loses and reorders no case: the XML cases come first, then the synthesised ones |
| PackagesReport.CloseAgrees | testr/packages.py:507-510 | the as-written close succeeds without a None exactly when a top suite exists, and then agrees with the corrected close |
| PackagesReport.PackageSuitesCorrectedShape | testr/packages.py:437-510 | the corrected package raises exactly when a test without a report is still `not run`, with KeyError; otherwise its cases are the XML cases in test order followed by the synthesised cases in test order |
| PackagesReport.CorrectedRaises | testr/packages.py:485-491 | a test still `not run` without a report makes the corrected package raise KeyError |
| PackagesReport.CorrectedCases | testr/packages.py:437-510 | when every case can be synthesised, the corrected package's cases are the XML cases followed by the synthesised ones |
| PackagesReport.SynthAllError | testr/packages.py:491 | synthesising raises exactly when some test is still `not run`, with KeyError |
| PackagesReport.PackageSuitesAgree | testr/packages.py:437-510 | where the as-written package yields no None, the corrected package yields the same suites |
| PackagesReport.MinOpt | testr/packages.py:531-532 | a single item is returned as it is; TypeError exactly when there are two or more items and one is None; otherwise a timestamp |
| PackagesReport.MaxOpt | testr/packages.py:531 | the same, for `max` |
| PackagesReport.MinOptIsLeast | testr/packages.py:531-532 | the minimum is one of the items and no item is below it |
| PackagesReport.MaxOptIsGreatest | testr/packages.py:531 | the maximum is one of the items and no item is above it |
| PackagesReport.Started | testr/packages.py:527-530 | exactly the suites whose test was started |
| PackagesReport.Starts | testr/packages.py:529-530 | the start time of each suite, in order |
| PackagesReport.Stops | testr/packages.py:527-528 | the stop time of each suite, in order |
| PackagesReport.RunStopIsEarliestStop | testr/packages.py:527-531 | as written, the run's stop time is not later than the stop time of any started suite |
| PackagesReport.RunStopBeforeLastStart | testr/packages.py:531 | two tests run one after the other give a run stop time earlier than the start of the second |
| PackagesReport.RunWindowCovers | testr/packages.py:527-532 | corrected, the run window starts no later and stops no earlier than every started test that stopped |
| PackagesReport.Unwrap | testr/packages.py:512 | the suites of a list that holds no None, which wrap back to the list |
| PackagesReport.AllPackagesStopAtError | testr/packages.py:436-512 | once a package raises, the later packages do not matter |
| PackagesReport.WriteLogSpec | testr/packages.py:423-540 | a written report has a run window exactly when it has suites, and no packages give an empty report |
| PackagesReport.WriteLog | testr/packages.py:423-540 | the loop over the packages in sorted order gives the report the specification gives, or its error |
| PackagesReport.EmptyPackageBreaksLog | testr/packages.py:507-527 | a package with no tests makes `write_log` raise TypeError as written; corrected, the report is empty |
| PackagesReport.WrapAppend | testr/packages.py:512 | wrapping distributes over concatenation |
| PackagesReport.NoNoneAppend | testr/packages.py:512 | a concatenation without None has no None in either part |
| PackagesReport.AllPackagesAgree | testr/packages.py:436-512 | wherever the as-written suites hold no None, the corrected suites are the same, package by package |
| PackagesReport.WriteLogAgrees | testr/packages.py:423-540 | wherever the as-written report is written, the corrected one is too, with the same suites and the same run start |
| PackagesReport.UnwrapWrap | testr/packages.py:512 | unwrapping wrapped suites gives them back |
| PackagesReport.SameRunStart | testr/packages.py:527-532 | the two run windows fail together and have the same start |
| PackagesReport.CollectSuites | testr/packages.py:436-512 | the loop over the packages in the given order gives the specification's suites, or the first package's error |
| PackagesReport.RunWindowOfTwo | testr/packages.py:527-532 | as written, two started and stopped suites give the earlier of their starts and the earlier of their stops |
| PackagesRegress.FileStore.constructor | testr/packages.py:591-610 | the store starts with the given files and directories |
| PackagesRegress.FileStore.MakeDirs | testr/packages.py:592-607 | the directory exists afterwards; no file changes |
| PackagesRegress.FileStore.Write | testr/packages.py:609-610 | the file holds exactly the written lines afterwards; nothing else changes |
| PackagesRegress.EnvGet | testr/packages.py:582-584 | a value exactly when the variable is set, and then its value |
| PackagesRegress.OrEnv | testr/packages.py:581-584 | the argument when given, the environment variable otherwise |
| PackagesRegress.CleanLines | testr/packages.py:598-600 | one line per line; with no rules the lines are unchanged |
| PackagesRegress.CleanLinesPerLine | testr/packages.py:598-600 | cleaning works line by line: each line gets every rule, in the given order |
| PackagesRegress.Jobs | testr/packages.py:594-604 | one copy per regression file, from `out_dir/rf` to `regress_dir/rf` |
| PackagesRegress.CopyOne | testr/packages.py:595-610 | a missing source raises FileNotFoundError and changes nothing; otherwise the destination's directory exists afterwards and the destination holds the cleaned source lines |
| PackagesRegress.Clean | testr/packages.py:598-600 | the loop over the rules gives the cleaned lines |
| PackagesRegress.MakeRegressFiles | testr/packages.py:561-610 | the files, directories and error afterwards are the specification's |
| PackagesRegress.CopyFile | testr/packages.py:594-610 | one turn of the loop does what copying one file specifies |
| PackagesRegress.CopyAllSnoc | testr/packages.py:594-610 | one more file is one more copy unless an earlier copy failed |
| PackagesRegress.CopyAllStopsAtError | testr/packages.py:594-596 | once a copy fails, the later files are not looked at |
| PackagesRegress.CopyAllFrame | testr/packages.py:594-610 | a path that is no copy's destination keeps what it held |
| PackagesRegress.SeparatePrefix | testr/packages.py:594-610 | separate sources and destinations stay separate for a prefix of the copies |
| PackagesRegress.CopyAllError | testr/packages.py:594-596 | with sources and destinations apart, the copy raises exactly when some source is missing |
| PackagesRegress.CopyAllWrites | testr/packages.py:604-610 | after a copy without error every destination exists, in a directory that exists |
| PackagesRegress.CopyAllContents | testr/packages.py:594-610 | after a copy without error each destination holds its source's original lines cleaned by that file's own rules, the last copy winning where two share a destination |
| PackagesRegress.MakeRegressResult | testr/packages.py:561-610 | the regression directory exists afterwards; the call raises exactly when some `out_dir/rf` is missing; otherwise each file lands at `regress_dir/rf` with its cleaned lines, and no other file changes |
| PackagesRegress.CopyAllDirs | testr/packages.py:592-607 | copying never removes a directory |
| PackagesRegress.PatternList.constructor | testr/packages.py:630-631 | the list holds the given patterns |
| PackagesRegress.PatternList.Append | testr/packages.py:633 | the pattern is appended to the caller's list |
| PackagesRegress.LineMatches | testr/packages.py:644-648 | no message exactly when no line matches the check without matching an allow pattern |
| PackagesRegress.CheckMatches | testr/packages.py:643-648 | no message exactly when no check flags any line |
| PackagesRegress.ScanLines | testr/packages.py:644-648 | the loop over the lines gives the messages for one check in line order |
| PackagesRegress.ScanChecks | testr/packages.py:643-648 | the loop over the checks gives every check's messages, check by check |
| PackagesRegress.CheckFiles | testr/packages.py:613-651 | the bash prompt is appended to the caller's allow list in place, and the error is the specification's |
| PackagesRegress.FileMatchesStopsAtError | testr/packages.py:639-641 | once a file cannot be read, the later files are not looked at |
| PackagesRegress.FileMatchesEmptyIff | testr/packages.py:639-648 | when every file can be read, there is no message exactly when no file holds a flagged line |
| PackagesRegress.FileMatchesSnoc | testr/packages.py:639-648 | one more readable file adds its checks' messages |
| PackagesRegress.CheckMatchesEmptyIff | testr/packages.py:643-648 | a file gives no message exactly when it holds no flagged line |
| PackagesRegress.CheckFilesRaisesIff | testr/packages.py:613-651 | `check_files` raises only ValueError, and does so exactly when some line of a globbed file matches a check and no allow pattern, the bash prompt among them |
| PackagesRegress.PromptNeverFlagged | testr/packages.py:633-646 | a bash prompt line is never flagged, whatever the checks |
| PackagesRegress.CopyJobs | testr/packages.py:594-610 | copying the regression files one by one leaves the files, directories and error the specification gives for the whole list |
| PackagesRegress.CollectMatches | testr/packages.py:638-648 | the loop over the globbed files gives the specification's matches, or the error of the first file that cannot be read |
| LegacyRunTests.IncludeTestFile | run_tests.py:86-90 | the stand-alone filter is the package filter applied to the comma-separated items of `--include` and `--exclude` |
| LegacyRunTests.SplitDefaults | run_tests.py:42-51 | the default `--include` `*` and `--exclude` `*_long` are each a single pattern with nothing to strip |
| LegacyRunTests.DefaultSkipsLong | run_tests.py:86-90 | with the default options a test file is included exactly when its `package/file` path has no `_long` in it |
| LegacyRunTests.DefaultExcludePattern | run_tests.py:47-51 | the default exclude pattern `*_long*` matches a path exactly when `_long` occurs in it |
| LegacyRunTests.OnePattern | run_tests.py:88-89 | one comma-separated entry matches a path exactly when the stripped entry followed by `*` matches it |
| LegacyRunTests.TestPattern | run_tests.py:109 | `test*.py` and `test*.sh` match exactly the names that start with `test` and end, after those four letters, with the extension |
| LegacyRunTests.CollectFilesAre | run_tests.py:109 | the collected files are exactly the listed names matching `test*.py`, `test*.sh` or equal to `copy_regress_files.py`, and the three kinds do not overlap |
| LegacyRunTests.InterpreterOf | run_tests.py:112 | `python` exactly for names ending in `.py`, `bash` for every other name |
| LegacyRunTests.AbsDir | run_tests.py:105-106 | the output and regress directories are normalised absolute paths: they begin with `/` under an absolute working directory, and normalising them again changes nothing |
| LegacyRunTests.NewTestFields | run_tests.py:110-120 | a new test record keeps its file name, is `not run` exactly when included and `skip` otherwise, has the interpreter of its extension, and has arguments only for `copy_regress_files.py`, which gets its absolute output and regress directories |
| LegacyRunTests.PackageTests | run_tests.py:108-122 | one record per collected file of the package |
| LegacyRunTests.NewTests | run_tests.py:110-122 | one record per file, in the order of the files |
| LegacyRunTests.PackageList | run_tests.py:110-122 | the loop that appends records builds the same list, record by record, as the specification function |
| LegacyRunTests.CollectTests | run_tests.py:93-124 | the result has a key for exactly the directories under the packages directory, each holding the records of that package's collected files |
| LegacyRunTests.Command | run_tests.py:154 | the command line starts with the interpreter, a space and the file, and is exactly that when there are no arguments |
| LegacyRunTests.CommandWords | run_tests.py:154 | the command line, split at spaces, gives back the interpreter, the file and the arguments, when none of them holds a space |
| LegacyRunTests.Ran | run_tests.py:147-160 | running leaves file, interpreter and arguments alone, leaves a skipped test untouched, and marks any other test `pass` exactly when its command succeeds and `fail` exactly when it does not |
| LegacyRunTests.RunTests | run_tests.py:127-160 | the run bails out exactly when every test of the package is skipped; every test record ends up as `Ran` makes it |
| LegacyRunTests.NoTestLeftNotRun | run_tests.py:131-160 | after a package has run no test of it is still `not run` |
| LegacyRunTests.MakeTestDir | run_tests.py:175-192 | the code as written: it fails with "output dir already exists" exactly when the run directory exists and the answer is not `y` |
| LegacyRunTests.DanglingLastLinkFails | run_tests.py:189-192 | a `last` link whose target is gone is not removed, so the new link cannot be made and the call fails after creating the run directory; the corrected version succeeds |
| LegacyRunTests.MakeTestDirCorrected | run_tests.py:175-192 | the corrected version, which replaces any old `last` link: same "already exists" condition |
| LegacyRunTests.MakeTestDirCorrectedResult | run_tests.py:175-192 | the corrected version succeeds unless the run directory is kept or `last` is a real directory; then the run directory exists and is empty, `last` names it, and nothing outside changed |
| LegacyRunTests.MakeTestDirAgrees | run_tests.py:189-192 | when an old `last` link resolves, the code as written and the corrected version give the same result |
| LegacyRunTests.PlainJoin | run_tests.py:176 | joining two relative names with no slash at the seam puts one `/` between them |
| LegacyRunTests.PackageRows | run_tests.py:169-170 | one `(package, file, status)` row per test of the package, in order |
| LegacyRunTests.GetResultsTable | run_tests.py:166-172 | the loop builds the rows of every package in sorted package order |
| LegacyRunTests.AddPackageRows | run_tests.py:169-170 | the inner loop appends one (package, script, status) row per test of the package, in test order |
| LegacyRunTests.RowsFromTests | run_tests.py:166-172 | the table has one row per test, and every row is a test of a listed package |
| LegacyRunTests.RowsInPackageOrder | run_tests.py:168 | with sorted package names the rows are ordered by package |
| LegacyRunTests.RowsOfOnePackage | run_tests.py:168-170 | the rows of one package are exactly its tests in collected order, or none when it is not listed |
| LegacyRunTests.ResultsTableOrder | run_tests.py:166-172 | the results table is ordered by package and holds each package's tests in collected order |
| Runner.RemoveKey | testr/runner.py:117-119 | the remaining keyword names are exactly the old ones other than the removed one |
| Runner.Get | testr/runner.py:117-122 | a present key gives its value, a missing key the default |
| Runner.Pop | testr/runner.py:117-119 | popping removes exactly that key from the keyword arguments |
| Runner.SetDefault | testr/runner.py:60-61 | a present key is left alone; a missing key is added, last, with the default |
| Runner.Put | testr/runner.py:65 | assigning a key sets exactly that key's value |
| Runner.SetDefaultsValues | testr/runner.py:60-61 | after the defaults each listed name keeps the caller's value or gets the default, and every other name is untouched |
| Runner.TestrKwargsValues | testr/runner.py:60-65 | `testr` turns the four flags on unless the caller passed them, always sets `stack_level` to 2 and leaves every other keyword argument alone |
| Runner.Testr | testr/runner.py:45-67 | `testr` does exactly what `test` does with those keyword arguments |
| Runner.ArgName | testr/runner.py:131 | the name of an argument is its longest prefix without `=`, followed in the argument by `=` when shorter |
| Runner.ArgNameIsFirstPiece | testr/runner.py:131 | that name is the first piece of splitting the argument at `=` |
| Runner.ArgNames | testr/runner.py:131 | one name per argument, position by position |
| Runner.Flags | testr/runner.py:132-135 | the flags `test` adds are only ever `-v` and `-s` |
| Runner.AddFlags | testr/runner.py:132-135 | the method adds exactly those flags after the arguments |
| Runner.AddReport | testr/runner.py:139-142 | the method appends exactly the report options |
| Runner.AddPlugins | testr/runner.py:146-154 | the method appends exactly the plugin switches |
| Runner.AssembleArgs | testr/runner.py:128-154 | the method builds the argument list as the specification function describes: user arguments, environment arguments, flags, warning filters, report, plugins |
| Runner.TailHasNoFlags | testr/runner.py:137-154 | the fixed tail (warning filters, report options, plugin switches) holds neither `-v` nor `-s` |
| Runner.UserArgsFirst | testr/runner.py:128-129 | the list starts with the caller's arguments, then the words of `TESTR_PYTEST_ARGS` |
| Runner.VerboseRule | testr/runner.py:132-133 | `-v` is in the list exactly when it was already given, or verbose is on and no argument is named `-q` |
| Runner.ShowOutputRule | testr/runner.py:134-135 | `-s` is in the list exactly when it was already given, or show output is on and no argument is named `--capture` |
| Runner.WarningsAreNotReports | testr/runner.py:12-38 | no warning filter looks like a JUnit report option |
| Runner.PluginsAreNotReports | testr/runner.py:146-154 | no plugin switch looks like a JUnit report option |
| Runner.ReportRule | testr/runner.py:137-142 | with both `TESTR_OUT_DIR` and `TESTR_FILE` set, a JUnit xunit2 report to `<TESTR_OUT_DIR>/<TESTR_FILE>.xml` is requested right after the warning filters; otherwise `test` adds no report option of its own |
| Runner.PluginsLast | testr/runner.py:144-154 | the list ends with `-p no:cacheprovider`, followed by the two hypothesis switches unless `TESTR_ALLOW_HYPOTHESIS` is set |
| Runner.KwargPairs | testr/runner.py:196 | the code as written: unpacking each key name as a pair, which succeeds with one entry per key |
| Runner.KwargPairsErrors | testr/runner.py:196 | as written, the pairs fail, with a `ValueError`, exactly when some key name is not two characters long |
| Runner.PluginsKwargBreaksCoverage | testr/runner.py:196 | a `plugins` keyword argument makes the coverage command raise `ValueError`, while the corrected pairs give `plugins=<object>` |
| Runner.KwargPairsCorrected | testr/runner.py:196 | the corrected pairs list one entry per keyword argument, in order (what the entries mean is `Runner.KwargPairsNamed`) |
| Runner.ArgNameOfPair | testr/runner.py:196 | a `key=value` word whose key has no `=` has the key as its option name |
| Runner.KwargPairsNamed | testr/runner.py:196 | each corrected word carries its keyword argument whole: the key as its option name and the value's text after the `=` |
| Runner.RunCodeCorrected | testr/runner.py:185-200 | with the corrected pairs the run raises only when coverage is on and `TESTR_OUT_DIR` is unset |
| Runner.CoverageRunCorrectedRule | testr/runner.py:185-198 | with the correction and coverage on, the run never raises because of keyword arguments, and the command ends with one word per leftover keyword argument, named by its key |
| Runner.RunCodeAgrees | testr/runner.py:185-200 | the correction changes nothing for an in-process run, nor for a coverage run without leftover keyword arguments |
| Runner.RunPytest | testr/runner.py:185-200 | the run is `coverage run` with the config, the data file in `TESTR_OUT_DIR`, the package directory, the arguments and the pairs; or `pytest.main` on the package directory and the arguments |
| Runner.CoverageRunRule | testr/runner.py:186-198 | with coverage on, the run fails with `ValueError` exactly when some leftover keyword name is not two characters long, and otherwise runs the coverage command with the package directory and the full argument list |
| Runner.RestRule | testr/runner.py:117-156 | the keyword arguments left for pytest are the caller's less the six that `test` takes |
| Runner.OptionsAfterPops | testr/runner.py:117-156 | popping one option does not change what the later pops read |
| Runner.TestSpec | testr/runner.py:70-205 | a missing coverage configuration gives `None` or `TestError` by `raise_exception`; the version string comes back exactly when asked for without `package_from_dir` and the configuration is not missing; a test result only otherwise |
| Runner.Test | testr/runner.py:70-205 | `test` returns or raises exactly what the specification of `test` says |
| Runner.TestWithConfig | testr/runner.py:128-205 | the part of `test` after the coverage check does the same |
| Runner.Conclude | testr/runner.py:156-205 | the end of `test` decides its result from the options and the run |
| Runner.MissingConfigStops | testr/runner.py:123-126 | a missing coverage configuration stops `test` before any run |
| Runner.MissingConfigRule | testr/runner.py:123-126 | `None` is returned exactly when coverage is on, its configuration is missing and `raise_exception` is off; with `raise_exception` on the same case raises `TestError` |
| Runner.ReturnCodeRule | testr/runner.py:202-205 | after a run, `TestError('Failed')` is raised exactly when the return code is nonzero and `raise_exception` is on; otherwise the result is whether the code was nonzero |
| Runner.VersionRule | testr/runner.py:170-179 | the version string is returned exactly when `get_version` is asked without `package_from_dir` and the coverage configuration is not missing |
| Runner.Abbrev | testr/runner.py:227 | the abbreviated hash is a prefix of at most seven characters |
| Runner.GetFullVersion | testr/runner.py:208-233 | the code as written: the version starts with the release version and is exactly it when git fails or exits nonzero |
| Runner.Tagged | testr/runner.py:227 | a tagged version starts with the release version |
| Runner.RevisionCountAsWritten | testr/runner.py:225-227 | for `git rev-list` output of N hashes the version as written reads `-r<N+1>-` with the first hash abbreviated |
| Runner.OneCommitReadsTwo | testr/runner.py:225-227 | with a single commit the version as written reads `-r2-` |
| Runner.GetFullVersionCorrected | testr/runner.py:208-233 | the corrected version, which counts lines: same release prefix and fallback |
| Runner.RevisionCountCorrected | testr/runner.py:225-227 | for N hashes the corrected version reads `-r<N>-` with the first hash abbreviated |
| Runner.RevListPieces | testr/runner.py:226 | splitting `git rev-list` output at newlines gives the hashes and one empty piece; its lines are the hashes |
| Runner.Lines | testr/runner.py:226 | an output has at least one line |
| SetupHelper.PyTestArgsOrder | testr/setup_helper.py:33-35 | the command arguments are the warning filters shared with `test`, then, only when the `args` option is set, its shell-split words |
| SetupHelper.PyTest.constructor | testr/setup_helper.py:21-23 | a new command starts with its `args` option unset |
| SetupHelper.PyTest.RunTests | testr/setup_helper.py:25-37 | the command exits with the code pytest returns for those arguments |
| SetupHelper.SubPrefix | testr/setup_helper.py:58 | a name starting with `name_in` gets `name_out` in its place and keeps the rest; any other name is unchanged |
| SetupHelper.SubPrefixRoundTrip | testr/setup_helper.py:58 | renaming keeps the suffix, and renaming back gives the original name |
| SetupHelper.SubPrefixInjective | testr/setup_helper.py:58 | two names with the prefix that rename alike were the same name |
| SetupHelper.Renamed | testr/setup_helper.py:57-58 | one renamed name per name |
| SetupHelper.NameList.constructor | testr/setup_helper.py:44 | the list holds the given names |
| SetupHelper.NameList.Append | testr/setup_helper.py:61-62 | appending adds the name at the end and changes nothing else |
| SetupHelper.DuplicateList | testr/setup_helper.py:57-62 | a list ends up as its old names followed by their renamed copies, in order |
| SetupHelper.DuplicatedListRule | testr/setup_helper.py:57-62 | the list doubles, keeps the old names first, the copy of name `i` sits at `n + i`, and a name without the prefix is copied unchanged |
| SetupHelper.NameDict.constructor | testr/setup_helper.py:44 | the dictionary holds the given entries, keys in the given order |
| SetupHelper.NameDict.Store | testr/setup_helper.py:59-60 | storing a key sets exactly that value; a new key goes last and keys stay distinct |
| SetupHelper.StoredKeys | testr/setup_helper.py:59-60 | the keys after a store are the old ones and the stored one, still distinct |
| SetupHelper.DuplicateDict | testr/setup_helper.py:57-60 | the loop over a snapshot of the keys stores each renamed key with the value the old key has at that moment |
| SetupHelper.DuplicatedValues | testr/setup_helper.py:57-60 | no old key is lost |
| SetupHelper.DuplicatedValuesKeys | testr/setup_helper.py:57-60 | the keys afterwards are the old keys and their renamed copies |
| SetupHelper.DuplicatedValuesKeep | testr/setup_helper.py:57-60 | when no renamed key hits another old key, every old key keeps its value and every renamed key holds the value of its original |
| SetupHelper.SameTarget | testr/setup_helper.py:58 | without a clash, two old keys with the same renamed copy are the same key |
| SetupHelper.ClashOverwrites | testr/setup_helper.py:57-60 | when a renamed key is another old key, that key's value is overwritten: `{"a": 1, "xa": 2}` renamed from `x` to nothing ends with `a` holding 2 |
| SetupHelper.DuplicatedKeysPrefix | testr/setup_helper.py:57-60 | the old keys stay first, in their order |

## Left out

- Running processes (`bash`, `subprocess`, `pytest.main`, `coverage run`, `git rev-list`, `ska_version`) is a parameter: whether a command succeeds, or the return code or output it yields.
- `Tee` and all logging are left out; they only relay text.
- `shutil.copytree`, `shutil.rmtree`, `os.makedirs`, `chdir` and the temporary working directories are left out, except where an outcome depends on them. The regression helpers use a file store object. `make_test_dir` uses a set of directories and a map of links.
- The clock (`datetime`, `CxoTime`) is left out. `run_tests` takes its clock readings as a parameter.
- The platform queries (`platform`, `sys.maxsize`, `socket.gethostbyname`) and the process environment are fields of an environment value.
- Parsing is left out: XML (`minidom`, `_parse_xml`, `_parse_xml_testsuite`), YAML (`get_skip_tests`) and JSON output. The model starts from the parsed values.
- Other formatting is left out: astropy `Table`, and the `run_info` fields other than the start and stop times (date, argv, versions, host properties).
- Regular expressions (`re.sub`, `re.search`) stay abstract functions in `make_regress_files` and `check_files`.
- The renaming of `duplicate_package_info` substitutes `name_in` literally at the start of a name, and inserts `name_out` literally too. A `name_in` holding regular-expression metacharacters is not modelled, nor a `name_out` holding backslash escapes, which `re.sub` would expand as group references or reject.
- `fnmatch` character classes (`[...]`) are not modelled. Patterns are matched case-sensitively, as on POSIX.
- `shlex.split` is a parameter of `PyTest.run_tests`. `sys.exit` is its returned `SystemExit`.
- `PyTest`'s unset `args` option (the empty list) is the empty string. The base class `TestCommand` is left out.
- `duplicate_package_info` tests `isinstance(vals, dict)` at run time. The model has one method for a list and one for a dictionary.
- In `test()`, `inspect.stack`, the import of the package for `package_from_dir` and the resulting file paths are left out. The caller is given by its dotted module name. The package directory handed to pytest is derived from that name.
- `get_version_id`, `get_options` argument parsing and `main` of `testr/packages.py` are left out. So are `get_options` and `main` of `run_tests.py`. Only the option defaults that the filters rely on are modelled.
- `make_test_dir` of `testr/packages.py` is not part of this model. It differs from the modelled `run_tests.py` version: it reuses an existing log directory with a warning instead of asking, and it replaces any old `last` link, dangling or not (`os.path.lexists`).
- `get_results_table` of `testr/packages.py` is not part of this model. It collects the same rows as the modelled `run_tests.py` version, but returns None instead of a table when there are no rows.
- `box_output` of `run_tests.py` is the same as that of `testr/packages.py`, which is modelled once (`PackagesReport.BoxOutput`).
- Runner.Pop: states the remaining values only. The order of the remaining key names is stated separately by `Runner.RemoveKey`.
- Runner.Put: states the values only, not where a new key goes in the key order.
- Common.Strip: states that no whitespace is left at either end and that the text does not grow. It does not state that the result is a contiguous part of the input; `Common.LStrip` and `Common.RStrip` state that for each side.
- SetupHelper.DuplicatedValuesKeep: holds only when no renamed key equals another original key. `SetupHelper.ClashOverwrites` shows what happens otherwise.
- PackagesSkip.EscapeChar: writes the backslash, the quote, newline, carriage return and tab escapes that `repr` writes. `repr` also writes other non-printable characters as `\xNN`, `\uNNNN` or `\UNNNNNNNN`; the model keeps those characters as they are.
- PackagesSkip.EvalRule: the module's dunder attributes (`__name__`, `__doc__`, `__all__`, `__file__` and the like) are not modelled. A rule naming one gets the ValueError of an unknown name, where Python would find the attribute, and calling it typically raises TypeError.
- TestHelper.HasPaths: a path is looked up as spelled after `$VAR` and `~` expansion. The same holds for `TestHelper.HasDirs` and `TestHelper.HasSybase`. How `pathlib` folds repeated slashes, `.` components and a trailing slash is not modelled. Neither is the Windows form of the expansion (`%VAR%`, `ntpath`).
- Common.Lower: lowers ASCII letters only, where `str.lower` also lowers other letters. The names compared with it (`not`, `true`) are ASCII.
- Integer widths play no part: all counts and return codes are unbounded integers.

## Findings

| source | as written | input that shows it | evidently intended | confidence | as-written member | corrected member |
|---|---|---|---|---|---|---|
| testr/packages.py:531 | the run's `t_stop` is the `min` of the suites' stop times | two tests run one after the other: the run stops before the second test starts | the `max` of the stop times, so the run window covers every test | not executed | PackagesReport.RunWindowAsWritten, PackagesReport.RunStopBeforeLastStart | PackagesReport.RunWindowCorrected, PackagesReport.RunWindowCovers |
| testr/packages.py:507-510 | the top suite is created only for a test without an XML report, yet it is merged or appended unconditionally | a package whose only test leaves one XML report raises TypeError at the merge; a package with no tests appends `None` and `write_log` raises TypeError | merge or append the top suite only when it exists | not executed | PackagesReport.SoleXmlTestRaises, PackagesReport.EmptyPackageBreaksLog, PackagesReport.NoneTopWhenEveryTestHasXml | PackagesReport.CloseCorrected, PackagesReport.PackageSuitesCorrected, PackagesReport.WriteLogCorrected, PackagesReport.WriteLogAgrees |
| testr/runner.py:226-227 | the revision count is the number of pieces of splitting the `git rev-list` output at newlines, which counts the empty piece after the final newline | a repository with one commit gives `-r2-` | the number of commits | not executed | Runner.GetFullVersion, Runner.RevisionCountAsWritten, Runner.OneCommitReadsTwo | Runner.GetFullVersionCorrected, Runner.RevisionCountCorrected |
| run_tests.py:189-192 | an old `last` link is removed only when `os.path.exists` sees it, which follows the link | a `last` link whose target directory was deleted: `os.symlink` raises FileExists after the run directory was made | replace any old `last` link (`os.path.lexists`) | not executed | LegacyRunTests.MakeTestDir, LegacyRunTests.DanglingLastLinkFails | LegacyRunTests.MakeTestDirCorrected, LegacyRunTests.MakeTestDirCorrectedResult, LegacyRunTests.MakeTestDirAgrees |
| testr/runner.py:196 | `for k, v in kwargs` iterates over the key names and unpacks each name into two characters | `test(plugins=[...])` with `TESTR_COVERAGE=true`, an existing coverage config and `TESTR_OUT_DIR` set raises ValueError | `kwargs.items()`, giving one `key=value` word per keyword argument | not executed | Runner.KwargPairs, Runner.KwargPairsErrors, Runner.PluginsKwargBreaksCoverage | Runner.KwargPairsCorrected, Runner.KwargPairsNamed, Runner.RunCodeCorrected, Runner.CoverageRunCorrectedRule, Runner.RunCodeAgrees |
