/**
 * The per-test skip rules of `testr/packages.py` (`skip.yml` in a package's
 * test directory) and `check_skip_test`, which decides whether a test is
 * skipped and why.
 */
module PackagesSkip {
  import opened Common
  import Glob
  import opened TestHelper

  /** The `reason` entry of a rule: missing, present but null, or a string. */
  datatype ReasonField = Absent | Null | Text(text: string)

  /**
   * One entry of `skip.yml`: the file glob it is keyed by, `check_func`, the
   * optional `check_args` and the optional `reason`.
   */
  datatype SkipRule = SkipRule(
    fileGlob: string,
    checkFunc: string,
    checkArgs: Option<seq<string>>,
    reason: ReasonField)

  /** `spec.get('check_args', [])`. */
  function ArgsOf(rule: SkipRule): seq<string> {
    match rule.checkArgs
    case None => []
    case Some(args) => args
  }

  /** `re.match(r'not\s', check_func, re.IGNORECASE)`. */
  predicate Negated(checkFunc: string) {
    |checkFunc| >= 4 && Lower(checkFunc[..3]) == "not" && IsSpace(checkFunc[3])
  }

  // ---------------------------------------------------------------------
  // repr() of a string argument, used in the default reason

  /** One character inside a repr literal delimited by `quote`. */
  function EscapeChar(c: char, quote: char): (r: string)
    ensures |r| >= 1
  {
    if c == '\\' then "\\\\"
    else if c == quote then ['\\', quote]
    else if c == '\n' then "\\n"
    else if c == '\r' then "\\r"
    else if c == '\t' then "\\t"
    else [c]
  }

  function Escape(s: string, quote: char): string
    decreases |s|
  {
    if s == [] then [] else EscapeChar(s[0], quote) + Escape(s[1..], quote)
  }

  /**
   * `repr(s)`: single quotes, unless `s` holds a single quote and no double
   * quote, in which case double quotes.
   */
  function Repr(s: string): (r: string)
    ensures |r| >= 2 && r[0] == r[|r| - 1] && r[0] in {'\'', '"'}
    ensures r[0] == '"' <==> '\'' in s && '"' !in s
  {
    var q := if '\'' in s && '"' !in s then '"' else '\'';
    [q] + Escape(s, q) + [q]
  }

  /** Reading the body of a repr literal back: undoes the escapes `Escape` writes. */
  function Unescape(t: string): string
    decreases |t|
  {
    if t == [] then []
    else if t[0] == '\\' && |t| >= 2 then
      var c := if t[1] == 'n' then '\n' else if t[1] == 'r' then '\r'
               else if t[1] == 't' then '\t' else t[1];
      [c] + Unescape(t[2..])
    else [t[0]] + Unescape(t[1..])
  }

  lemma UnescapeEscapeChar(c: char, quote: char, rest: string)
    requires quote != 'n' && quote != 'r' && quote != 't'
    ensures Unescape(EscapeChar(c, quote) + rest) == [c] + Unescape(rest)
  {
    var e := EscapeChar(c, quote);
    if |e| == 2 {
      assert (e + rest)[0] == '\\' && (e + rest)[1] == e[1];
      assert (e + rest)[2..] == rest;
    } else {
      assert (e + rest)[0] == c && (e + rest)[1..] == rest;
    }
  }

  lemma {:induction false} UnescapeEscape(s: string, quote: char)
    requires quote != 'n' && quote != 'r' && quote != 't'
    ensures Unescape(Escape(s, quote)) == s
    decreases |s|
  {
    if s != [] {
      UnescapeEscape(s[1..], quote);
      UnescapeEscapeChar(s[0], quote, Escape(s[1..], quote));
      assert [s[0]] + s[1..] == s;
    }
  }

  /** The string inside a repr literal reads back as the original argument. */
  lemma ReprRoundTrip(s: string)
    ensures var r := Repr(s); Unescape(r[1..|r| - 1]) == s
  {
    var q := if '\'' in s && '"' !in s then '"' else '\'';
    var r := Repr(s);
    assert r[1..|r| - 1] == Escape(s, q);
    UnescapeEscape(s, q);
  }

  function Reprs(args: seq<string>): (r: seq<string>)
    ensures |r| == |args|
    ensures forall i :: 0 <= i < |args| ==> r[i] == Repr(args[i])
    decreases |args|
  {
    if args == [] then [] else [Repr(args[0])] + Reprs(args[1..])
  }

  /** `check_func + '(' + ', '.join(repr(arg) for arg in check_args) + ')'`. */
  function DefaultReason(rule: SkipRule): string {
    rule.checkFunc + "(" + Join(Reprs(ArgsOf(rule)), ", ") + ")"
  }

  /** `spec.get('reason', reason)`: None for a null entry. */
  function ReasonOf(rule: SkipRule): (r: Option<string>)
    ensures rule.reason.Absent? ==> r == Some(DefaultReason(rule))
    ensures rule.reason.Null? <==> r.None?
  {
    match rule.reason
    case Absent => Some(DefaultReason(rule))
    case Null => None
    case Text(t) => Some(t)
  }

  // ---------------------------------------------------------------------
  // Evaluating one rule

  /** `check_func.split()[-1]`: IndexError when `check_func` is blank. */
  function FuncName(checkFunc: string): (r: Result<string>)
    ensures r.Err? <==> SplitWhitespace(checkFunc) == []
    ensures r.Err? ==> r.error == IndexError
    ensures r.Ok? ==> r.value in SplitWhitespace(checkFunc)
  {
    var words := SplitWhitespace(checkFunc);
    if words == [] then Err(IndexError) else Ok(words[|words| - 1])
  }

  /**
   * The check of a rule whose glob matched: the last word of `check_func`
   * names an attribute of `test_helper`, which is called with the arguments
   * and negated when `check_func` begins with "not" and whitespace.
   */
  function EvalRule(rule: SkipRule, env: Env): (r: Result<bool>)
    ensures FuncName(rule.checkFunc).Err? ==> r == Err(IndexError)
    ensures FuncName(rule.checkFunc).Ok? && Lookup(FuncName(rule.checkFunc).value).None? ==>
              r == Err(ValueError(FuncName(rule.checkFunc).value + " must be a function in testr.test_helper"))
    ensures FuncName(rule.checkFunc) == Ok("Path") ==> r == Ok(!Negated(rule.checkFunc))
    ensures FuncName(rule.checkFunc).Ok? && IsImportedModule(FuncName(rule.checkFunc).value) ==>
              r.Err? && r.error.TypeError?
  {
    match FuncName(rule.checkFunc)
    case Err(e) => Err(e)
    case Ok(name) =>
      match Lookup(name)
      case None => Err(ValueError(name + " must be a function in testr.test_helper"))
      case Some(attr) =>
        match CallAttr(attr, ArgsOf(rule), env)
        case Err(e) => Err(e)
        case Ok(b) => Ok(if Negated(rule.checkFunc) then !b else b)
  }

  /** What one rule says about one file: no opinion (false) unless its glob matches. */
  function Verdict(file: string, rule: SkipRule, env: Env): (r: Result<bool>)
    ensures !Glob.Match(rule.fileGlob, file) ==> r == Ok(false)
    ensures Glob.Match(rule.fileGlob, file) ==> r == EvalRule(rule, env)
  {
    if Glob.Match(rule.fileGlob, file) then EvalRule(rule, env) else Ok(false)
  }

  lemma LowerNotHasNoSpace(neg: string)
    requires |neg| == 3 && Lower(neg) == "not"
    ensures forall c :: c in neg ==> !IsSpace(c)
  {
    forall c | c in neg ensures !IsSpace(c) {
      var i :| 0 <= i < 3 && neg[i] == c;
      assert LowerChar(c) == "not"[i];
    }
  }

  /** Two spellings naming the same check, one negated and one not, give opposite answers. */
  lemma EvalRuleNegation(rule: SkipRule, negated: string, plain: string, env: Env)
    requires FuncName(negated) == FuncName(plain) && FuncName(plain).Ok?
    requires Negated(negated) && !Negated(plain)
    ensures var p := EvalRule(rule.(checkFunc := plain), env);
            var n := EvalRule(rule.(checkFunc := negated), env);
      && (p.Ok? ==> n == Ok(!p.value))
      && (p.Err? ==> n == p)
  {
    var name := FuncName(plain).value;
    var args := ArgsOf(rule.(checkFunc := plain));
    assert args == ArgsOf(rule.(checkFunc := negated));
    match Lookup(name) {
      case None =>
      case Some(attr) =>
        var c := CallAttr(attr, args, env);
        assert EvalRule(rule.(checkFunc := plain), env) == if c.Err? then Err(c.error) else Ok(c.value);
        assert EvalRule(rule.(checkFunc := negated), env) == if c.Err? then Err(c.error) else Ok(!c.value);
    }
  }

  /** "not" (in any case), a space and a check name: the name is the check, and it is negated. */
  lemma NotSpelling(neg: string, name: string)
    requires |neg| == 3 && Lower(neg) == "not"
    requires name != [] && forall c :: c in name ==> !IsSpace(c)
    ensures FuncName(neg + (" " + name)) == Ok(name) == FuncName(name)
    ensures Negated(neg + (" " + name)) && !Negated(name)
  {
    NotSpellingName(neg, name);
    NegatedSpelled(neg, name);
    NotNegatedName(name);
  }

  lemma NegatedSpelled(neg: string, name: string)
    requires |neg| == 3 && Lower(neg) == "not"
    ensures Negated(neg + (" " + name))
  {
    var f := neg + (" " + name);
    assert f[..3] == neg && f[3] == ' ';
  }

  lemma NotNegatedName(name: string)
    requires forall c :: c in name ==> !IsSpace(c)
    ensures !Negated(name)
  {
    if |name| >= 4 { assert name[3] in name; }
  }

  lemma NotSpellingName(neg: string, name: string)
    requires |neg| == 3 && Lower(neg) == "not"
    requires name != [] && forall c :: c in name ==> !IsSpace(c)
    ensures FuncName(neg + (" " + name)) == Ok(name) == FuncName(name)
  {
    LowerNotHasNoSpace(neg);
    SplitWhitespaceWord(name);
    SplitWhitespaceTwoWords(neg, name);
  }

  /**
   * Writing "not" (in any case) and a space before a check name negates the
   * check; errors are the same either way.
   */
  lemma NotNegatesCheck(rule: SkipRule, neg: string, name: string, env: Env)
    requires |neg| == 3 && Lower(neg) == "not"
    requires name != [] && forall c :: c in name ==> !IsSpace(c)
    ensures var plain := EvalRule(rule.(checkFunc := name), env);
            var negated := EvalRule(rule.(checkFunc := neg + (" " + name)), env);
      && (plain.Ok? ==> negated == Ok(!plain.value))
      && (plain.Err? ==> negated == plain)
  {
    NotSpelling(neg, name);
    EvalRuleNegation(rule, neg + (" " + name), name, env);
  }

  // ---------------------------------------------------------------------
  // check_skip_test

  /**
   * The scan of `check_skip_test` over the rules' verdicts, in file order:
   * the index of the first rule that fires, an error raised on the way, or
   * None when no rule fires.
   */
  function FirstFiring(verdicts: seq<Result<bool>>): (r: Result<Option<nat>>)
    ensures r.Ok? && r.value.Some? ==> r.value.value < |verdicts| && verdicts[r.value.value] == Ok(true)
    ensures r.Ok? ==> forall j :: 0 <= j < |verdicts| && (r.value.None? || j < r.value.value) ==>
                        verdicts[j] == Ok(false)
    decreases |verdicts|
  {
    if verdicts == [] then Ok(None)
    else match verdicts[0]
      case Err(e) => Err(e)
      case Ok(fire) =>
        if fire then Ok(Some(0))
        else match FirstFiring(verdicts[1..])
          case Err(e) => Err(e)
          case Ok(None) => Ok(None)
          case Ok(Some(k)) => Ok(Some(k + 1))
  }

  /** What each rule says about the file, in file order. */
  function Verdicts(file: string, rules: seq<SkipRule>, env: Env): (vs: seq<Result<bool>>)
    ensures |vs| == |rules|
    ensures forall j :: 0 <= j < |rules| ==> vs[j] == Verdict(file, rules[j], env)
  {
    seq(|rules|, j requires 0 <= j < |rules| => Verdict(file, rules[j], env))
  }

  /**
   * `check_skip_test(test, skip_tests)` for a test whose file is `file`, the
   * rules in file order: the reason of the first rule whose glob matches and
   * whose check holds, an error raised on the way, or None when no rule fires.
   */
  function CheckSkipTest(file: string, rules: seq<SkipRule>, env: Env): (r: Result<Option<string>>)
    ensures r.Ok? && r.value.Some? ==>
              exists k :: 0 <= k < |rules| && Glob.Match(rules[k].fileGlob, file)
                && EvalRule(rules[k], env) == Ok(true) && ReasonOf(rules[k]) == r.value
  {
    match FirstFiring(Verdicts(file, rules, env))
    case Err(e) => Err(e)
    case Ok(None) => Ok(None)
    case Ok(Some(k)) =>
      assert Verdict(file, rules[k], env) == Ok(true);
      Ok(ReasonOf(rules[k]))
  }

  /** The scan stops at the first verdict that is not "do not skip", and only there. */
  lemma {:induction false} FirstFiringAt(verdicts: seq<Result<bool>>, i: nat)
    requires i <= |verdicts|
    requires forall j :: 0 <= j < i ==> verdicts[j] == Ok(false)
    ensures i < |verdicts| && verdicts[i].Err? ==> FirstFiring(verdicts) == Err(verdicts[i].error)
    ensures i < |verdicts| && verdicts[i] == Ok(true) ==> FirstFiring(verdicts) == Ok(Some(i))
    ensures i == |verdicts| ==> FirstFiring(verdicts) == Ok(None)
    decreases i
  {
    if i > 0 {
      assert verdicts[0] == Ok(false);
      FirstFiringAt(verdicts[1..], i - 1);
    }
  }

  /** An error comes from a verdict that raised, every earlier one "do not skip". */
  lemma {:induction false} FirstFiringError(verdicts: seq<Result<bool>>)
    requires FirstFiring(verdicts).Err?
    ensures exists i :: 0 <= i < |verdicts| && verdicts[i] == Err(FirstFiring(verdicts).error)
              && (forall j :: 0 <= j < i ==> verdicts[j] == Ok(false))
    decreases |verdicts|
  {
    if verdicts[0].Ok? {
      var rest := verdicts[1..];
      FirstFiringError(rest);
      var i :| 0 <= i < |rest| && rest[i] == Err(FirstFiring(rest).error)
                && (forall j :: 0 <= j < i ==> rest[j] == Ok(false));
      forall j | 0 <= j < i + 1 ensures verdicts[j] == Ok(false) {
        if j > 0 { assert verdicts[j] == rest[j - 1]; }
      }
      assert verdicts[i + 1] == rest[i];
    }
  }

  /** The first rule that fires decides, with its reason. */
  lemma CheckSkipTestFirstFiring(file: string, rules: seq<SkipRule>, env: Env, i: nat)
    requires i < |rules|
    requires forall j :: 0 <= j < i ==> Verdict(file, rules[j], env) == Ok(false)
    requires Verdict(file, rules[i], env) == Ok(true)
    ensures CheckSkipTest(file, rules, env) == Ok(ReasonOf(rules[i]))
  {
    FirstFiringAt(Verdicts(file, rules, env), i);
  }

  /** When no rule fires the test is not skipped. */
  lemma CheckSkipTestNoneFires(file: string, rules: seq<SkipRule>, env: Env)
    requires forall j :: 0 <= j < |rules| ==> Verdict(file, rules[j], env) == Ok(false)
    ensures CheckSkipTest(file, rules, env) == Ok(None)
  {
    FirstFiringAt(Verdicts(file, rules, env), |rules|);
  }

  /** A rule whose glob does not match the file never raises. */
  lemma {:induction false} NoMatchingGlobNoSkip(file: string, rules: seq<SkipRule>, env: Env)
    requires forall j :: 0 <= j < |rules| ==> !Glob.Match(rules[j].fileGlob, file)
    ensures CheckSkipTest(file, rules, env) == Ok(None)
  {
    CheckSkipTestNoneFires(file, rules, env);
  }

  /** An error comes from the first rule whose check raised, all earlier ones silent. */
  lemma CheckSkipTestError(file: string, rules: seq<SkipRule>, env: Env)
    requires CheckSkipTest(file, rules, env).Err?
    ensures exists i :: 0 <= i < |rules| && Verdict(file, rules[i], env) == Err(CheckSkipTest(file, rules, env).error)
              && Glob.Match(rules[i].fileGlob, file)
              && (forall j :: 0 <= j < i ==> Verdict(file, rules[j], env) == Ok(false))
  {
    var vs := Verdicts(file, rules, env);
    var e := CheckSkipTest(file, rules, env).error;
    CheckSkipTestScan(file, rules, env);
    FirstFiringError(vs);
    var i :| 0 <= i < |vs| && vs[i] == Err(e) && (forall j :: 0 <= j < i ==> vs[j] == Ok(false));
    VerdictErrMatches(file, rules[i], env);
  }

  lemma CheckSkipTestScan(file: string, rules: seq<SkipRule>, env: Env)
    ensures CheckSkipTest(file, rules, env).Err? ==>
              FirstFiring(Verdicts(file, rules, env)) == Err(CheckSkipTest(file, rules, env).error)
  {
  }

  lemma VerdictErrMatches(file: string, rule: SkipRule, env: Env)
    requires Verdict(file, rule, env).Err?
    ensures Glob.Match(rule.fileGlob, file)
  {
  }
}
