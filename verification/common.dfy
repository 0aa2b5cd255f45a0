/**
 * Shared vocabulary of the model: optional values, the Python exceptions the
 * modelled code raises, and the few string and path operations of the Python
 * standard library the orchestrator relies on (`str.strip`, `str.split`,
 * `str.join`, `str.lower`, `os.path.join`, `sorted` on strings).
 */
module Common {

  datatype Option<T> = None | Some(value: T)

  /** The exceptions raised (or let through) by the modelled code. */
  datatype Error =
    | ValueError(msg: string)
    | TypeError(msg: string)
    | KeyError(key: string)
    | IndexError
    | FileNotFound(path: string)
    | OutputDirExists(path: string)
    | TestFailed(msg: string)
    | SystemExit(code: int)
    | FileExists(path: string)
    | IsADirectory(path: string)

  datatype Result<T> = Ok(value: T) | Err(error: Error)

  // ---------------------------------------------------------------------
  // Characters and simple predicates

  /**
   * `str.isspace()` for one character: the characters `str.split()` and
   * `str.strip()` drop and `\s` matches in a `str` pattern. These are the
   * ASCII controls from tab to carriage return and from the file separator
   * to space, and the Unicode spaces and separators.
   */
  predicate IsSpace(c: char) {
    var n := c as int;
    || 9 <= n <= 13 || 28 <= n <= 32
    || n == 0x85 || n == 0xa0 || n == 0x1680 || 0x2000 <= n <= 0x200a
    || n == 0x2028 || n == 0x2029 || n == 0x202f || n == 0x205f || n == 0x3000
  }

  predicate StartsWith(s: string, prefix: string) {
    |prefix| <= |s| && s[..|prefix|] == prefix
  }

  predicate EndsWith(s: string, suffix: string) {
    |suffix| <= |s| && s[|s| - |suffix|..] == suffix
  }

  function LowerChar(c: char): char {
    if 'A' <= c <= 'Z' then (c as int + 32) as char else c
  }

  /** `str.lower()` on ASCII letters. */
  function Lower(s: string): (r: string)
    ensures |r| == |s|
    ensures forall i :: 0 <= i < |s| ==> r[i] == LowerChar(s[i])
  {
    seq(|s|, i requires 0 <= i < |s| => LowerChar(s[i]))
  }

  // ---------------------------------------------------------------------
  // Stripping

  function LStrip(s: string): (r: string)
    ensures |r| <= |s| && r == s[|s| - |r|..]
    ensures r == [] || !IsSpace(r[0])
    ensures forall i :: 0 <= i < |s| - |r| ==> IsSpace(s[i])
  {
    if s != [] && IsSpace(s[0]) then LStrip(s[1..]) else s
  }

  function RStrip(s: string): (r: string)
    ensures |r| <= |s| && r == s[..|r|]
    ensures r == [] || !IsSpace(r[|r| - 1])
    ensures forall i :: |r| <= i < |s| ==> IsSpace(s[i])
  {
    if s != [] && IsSpace(s[|s| - 1]) then RStrip(s[..|s| - 1]) else s
  }

  /** `str.strip()`: the longest infix with no whitespace at either end. */
  function Strip(s: string): (r: string)
    ensures r == [] || (!IsSpace(r[0]) && !IsSpace(r[|r| - 1]))
    ensures |r| <= |s|
  {
    RStrip(LStrip(s))
  }

  // ---------------------------------------------------------------------
  // Splitting and joining

  /** `s.split(sep)` for a one-character separator: never empty. */
  function Split(s: string, sep: char): (r: seq<string>)
    ensures |r| >= 1
    ensures forall i :: 0 <= i < |r| ==> sep !in r[i]
    decreases |s|
  {
    if s == [] then [""]
    else if s[0] == sep then [""] + Split(s[1..], sep)
    else
      var rest := Split(s[1..], sep);
      [[s[0]] + rest[0]] + rest[1..]
  }

  /** `sep.join(parts)`. */
  function Join(parts: seq<string>, sep: string): string
    decreases |parts|
  {
    if parts == [] then ""
    else if |parts| == 1 then parts[0]
    else parts[0] + sep + Join(parts[1..], sep)
  }

  /** Number of occurrences of `c` in `s`. */
  function Count(s: string, c: char): nat
    decreases |s|
  {
    if s == [] then 0 else (if s[0] == c then 1 else 0) + Count(s[1..], c)
  }

  /** Splitting on `sep` and joining with `sep` gives the string back. */
  lemma {:induction false} JoinSplit(s: string, sep: char)
    ensures Join(Split(s, sep), [sep]) == s
    decreases |s|
  {
    if s == [] {
    } else if s[0] == sep {
      JoinSplit(s[1..], sep);
      var rest := Split(s[1..], sep);
      assert Split(s, sep) == [""] + rest;
      assert ([""] + rest)[1..] == rest;
      assert s == [sep] + s[1..];
    } else {
      JoinSplit(s[1..], sep);
      var rest := Split(s[1..], sep);
      var r := Split(s, sep);
      assert r == [[s[0]] + rest[0]] + rest[1..];
      if |rest| == 1 {
        assert s == [s[0]] + s[1..];
      } else {
        assert r[1..] == rest[1..];
        assert Join(rest, [sep]) == rest[0] + [sep] + Join(rest[1..], [sep]);
        assert s == [s[0]] + s[1..];
      }
    }
  }

  /** `s.split(sep)` has one piece more than `s` has separators. */
  lemma {:induction false} SplitCount(s: string, sep: char)
    ensures |Split(s, sep)| == Count(s, sep) + 1
    decreases |s|
  {
    if s != [] {
      SplitCount(s[1..], sep);
    }
  }

  /** Splitting a string with no separator in it gives the string itself. */
  lemma {:induction false} SplitNoSep(a: string, sep: char)
    requires sep !in a
    ensures Split(a, sep) == [a]
    decreases |a|
  {
    if a != [] {
      SplitNoSep(a[1..], sep);
      assert [a[0]] + a[1..] == a;
    }
  }

  /** A separator-free head is split off as one piece. */
  lemma {:induction false} SplitAfter(a: string, sep: char, x: string)
    requires sep !in a
    ensures Split(a + [sep] + x, sep) == [a] + Split(x, sep)
    decreases |a|
  {
    var s := a + [sep] + x;
    if a == [] {
      assert s == [sep] + x;
      assert s[1..] == x;
    } else {
      SplitAfter(a[1..], sep, x);
      assert s[0] == a[0] && s[1..] == a[1..] + [sep] + x;
      assert [a[0]] + a[1..] == a;
    }
  }

  /** Joining pieces free of the separator and splitting again gives the pieces back. */
  lemma {:induction false} SplitJoin(parts: seq<string>, sep: char)
    requires |parts| >= 1
    requires forall i :: 0 <= i < |parts| ==> sep !in parts[i]
    ensures Split(Join(parts, [sep]), sep) == parts
    decreases |parts|
  {
    if |parts| == 1 {
      SplitNoSep(parts[0], sep);
    } else {
      SplitJoin(parts[1..], sep);
      SplitAfter(parts[0], sep, Join(parts[1..], [sep]));
      assert [parts[0]] + parts[1..] == parts;
    }
  }

  /** The longest prefix of `s` free of whitespace. */
  function Word(s: string): (w: string)
    ensures |w| <= |s| && w == s[..|w|]
    ensures forall c :: c in w ==> !IsSpace(c)
    ensures s != [] && !IsSpace(s[0]) ==> |w| >= 1
    ensures |w| < |s| ==> IsSpace(s[|w|])
  {
    if s == [] || IsSpace(s[0]) then [] else [s[0]] + Word(s[1..])
  }

  /** `s.split()`: the maximal runs of non-whitespace, in order. */
  function SplitWhitespace(s: string): seq<string>
    decreases |s|
  {
    var t := LStrip(s);
    if t == [] then []
    else
      var w := Word(t);
      [w] + SplitWhitespace(t[|w|..])
  }

  /** A nonempty run of non-whitespace. */
  predicate IsWord(w: string) {
    w != [] && forall c :: c in w ==> !IsSpace(c)
  }

  /** The pieces of `s.split()` are nonempty and free of whitespace. */
  lemma {:induction false} SplitWhitespaceWords(s: string)
    ensures forall i :: 0 <= i < |SplitWhitespace(s)| ==> IsWord(SplitWhitespace(s)[i])
    decreases |s|
  {
    var t := LStrip(s);
    if t != [] {
      var w := Word(t);
      var rest := t[|w|..];
      assert |rest| < |s|;
      SplitWhitespaceWords(rest);
      ConsWords(w, SplitWhitespace(rest));
    }
  }

  lemma ConsWords(w: string, ws: seq<string>)
    requires IsWord(w) && forall i :: 0 <= i < |ws| ==> IsWord(ws[i])
    ensures forall i :: 0 <= i < |[w] + ws| ==> IsWord(([w] + ws)[i])
  {
  }

  /** `Word` stops exactly at the end of a leading whitespace-free word. */
  lemma {:induction false} WordOfPrefix(a: string, rest: string)
    requires a != [] && forall c :: c in a ==> !IsSpace(c)
    requires rest == [] || IsSpace(rest[0])
    ensures Word(a + rest) == a
    decreases |a|
  {
    var s := a + rest;
    assert a[0] in a;
    assert s[1..] == a[1..] + rest;
    if |a| == 1 {
      assert s[1..] == rest;
    } else {
      assert forall c :: c in a[1..] ==> c in a;
      WordOfPrefix(a[1..], rest);
      assert a == [a[0]] + a[1..];
    }
  }

  /** A whitespace-free word followed by whitespace (or nothing) splits off first. */
  lemma SplitWhitespaceCons(a: string, rest: string)
    requires a != [] && forall c :: c in a ==> !IsSpace(c)
    requires rest == [] || IsSpace(rest[0])
    ensures SplitWhitespace(a + rest) == [a] + SplitWhitespace(rest)
  {
    var s := a + rest;
    assert a[0] in a;
    assert s[0] == a[0];
    assert LStrip(s) == s;
    WordOfPrefix(a, rest);
    assert s[|a|..] == rest;
  }

  /** Leading whitespace does not change the split. */
  lemma SplitWhitespaceLeadingSpace(s: string)
    requires s != [] && IsSpace(s[0])
    ensures SplitWhitespace(s) == SplitWhitespace(s[1..])
  {
    assert LStrip(s) == LStrip(s[1..]);
  }

  /** A single word with no whitespace splits to itself. */
  lemma SplitWhitespaceWord(w: string)
    requires w != [] && forall c :: c in w ==> !IsSpace(c)
    ensures SplitWhitespace(w) == [w]
  {
    SplitWhitespaceCons(w, []);
    assert w + [] == w;
  }

  /** A space followed by one word splits to that word. */
  lemma SplitWhitespaceSpaceWord(b: string)
    requires b != [] && forall c :: c in b ==> !IsSpace(c)
    ensures SplitWhitespace(" " + b) == [b]
  {
    var t := " " + b;
    assert t[0] == ' ';
    SplitWhitespaceLeadingSpace(t);
    assert t[1..] == b;
    SplitWhitespaceWord(b);
  }

  /** Two space-separated words split to those two words. */
  lemma SplitWhitespaceTwoWords(a: string, b: string)
    requires a != [] && forall c :: c in a ==> !IsSpace(c)
    requires b != [] && forall c :: c in b ==> !IsSpace(c)
    ensures SplitWhitespace(a + (" " + b)) == [a] + [b]
  {
    var t := " " + b;
    assert t[0] == ' ';
    SplitWhitespaceCons(a, t);
    SplitWhitespaceSpaceWord(b);
  }

  // ---------------------------------------------------------------------
  // Decimal rendering of naturals, `str(n)`

  function DigitChar(d: nat): (c: char)
    requires d < 10
    ensures '0' <= c <= '9'
  {
    ('0' as int + d) as char
  }

  function NatToString(n: nat): (r: string)
    ensures |r| >= 1
    ensures forall i :: 0 <= i < |r| ==> '0' <= r[i] <= '9'
    decreases n
  {
    if n < 10 then [DigitChar(n)] else NatToString(n / 10) + [DigitChar(n % 10)]
  }

  /** `int(s)` for a string of decimal digits. */
  function ParseNat(s: string): nat
    requires forall i :: 0 <= i < |s| ==> '0' <= s[i] <= '9'
    decreases |s|
  {
    if s == [] then 0
    else
      ParseNat(s[..|s| - 1]) * 10 + (s[|s| - 1] as int - '0' as int)
  }

  /** Parsing the decimal rendering of `n` gives `n` back. */
  lemma {:induction false} ParseNatToString(n: nat)
    ensures ParseNat(NatToString(n)) == n
    decreases n
  {
    var r := NatToString(n);
    if n < 10 {
      assert r[..|r| - 1] == [];
    } else {
      ParseNatToString(n / 10);
      assert r[..|r| - 1] == NatToString(n / 10);
    }
  }

  // ---------------------------------------------------------------------
  // Paths

  /** `os.path.join(a, b)` on POSIX (also used for `pathlib`'s `/`). */
  function PathJoin(a: string, b: string): (r: string)
    ensures StartsWith(b, "/") ==> r == b
    ensures !StartsWith(b, "/") ==> EndsWith(r, b)
  {
    if StartsWith(b, "/") then b
    else if a == [] || EndsWith(a, "/") then a + b
    else a + "/" + b
  }

  /** The leading slashes `os.path.normpath` keeps: two exactly when `p` starts with exactly two. */
  function LeadingSlashes(p: string): (r: string)
    ensures r == "" || r == "/" || r == "//"
    ensures StartsWith(p, r)
    ensures r == "" <==> !StartsWith(p, "/")
  {
    if StartsWith(p, "//") && !StartsWith(p, "///") then "//"
    else if StartsWith(p, "/") then "/"
    else ""
  }

  /**
   * Components in normal form: none empty or `.`, `..` only in a leading run,
   * and none at all below the root.
   */
  predicate NormalComps(cs: seq<string>, rooted: bool) {
    && (forall i :: 0 <= i < |cs| ==> cs[i] != "" && cs[i] != ".")
    && (rooted ==> forall i :: 0 <= i < |cs| ==> cs[i] != "..")
    && (forall i :: 0 < i < |cs| && cs[i] == ".." ==> cs[i - 1] == "..")
  }

  /** One turn of the `normpath` loop: component `c` after the components kept so far. */
  function NormStep(kept: seq<string>, c: string, rooted: bool): seq<string> {
    if c == "" || c == "." then kept
    else if c != ".." || (!rooted && kept == []) || (kept != [] && kept[|kept| - 1] == "..") then kept + [c]
    else if kept != [] then kept[..|kept| - 1]
    else kept
  }

  /**
   * The components `os.path.normpath` keeps, scanning left to right: empty
   * and `.` components go, and `..` removes the component before it unless
   * that is itself `..`; with nothing before it, `..` is kept in a relative
   * path and dropped at the root.
   */
  function NormComps(comps: seq<string>, rooted: bool): (r: seq<string>)
    ensures NormalComps(r, rooted)
    ensures forall i :: 0 <= i < |r| ==> r[i] in comps
    decreases |comps|
  {
    if comps == [] then []
    else
      var kept := NormComps(comps[..|comps| - 1], rooted);
      var c := comps[|comps| - 1];
      assert forall i :: 0 <= i < |kept| ==> kept[i] in comps by {
        assert forall x :: x in comps[..|comps| - 1] ==> x in comps;
      }
      NormStep(kept, c, rooted)
  }

  /** `os.path.normpath(p)` on POSIX. */
  function NormPath(p: string): (r: string)
    ensures r != []
    ensures StartsWith(p, "/") ==> StartsWith(r, "/")
  {
    var lead := LeadingSlashes(p);
    var body := Join(NormComps(Split(p, '/'), lead != ""), "/");
    if lead + body == [] then "." else lead + body
  }

  /** `os.path.abspath(p)` with `cwd` as the working directory. */
  function AbsPath(cwd: string, p: string): (r: string)
    ensures StartsWith(cwd, "/") || StartsWith(p, "/") ==> StartsWith(r, "/")
  {
    PathJoinRooted(cwd, p);
    NormPath(PathJoin(cwd, p))
  }

  lemma PathJoinRooted(a: string, b: string)
    ensures StartsWith(a, "/") || StartsWith(b, "/") ==> StartsWith(PathJoin(a, b), "/")
  {
    if !StartsWith(b, "/") && StartsWith(a, "/") {
      var r := PathJoin(a, b);
      assert r[..|a|] == a;
      assert r[0] == a[0];
    }
  }

  lemma NormalPrefix(cs: seq<string>, rooted: bool)
    requires cs != [] && NormalComps(cs, rooted)
    ensures NormalComps(cs[..|cs| - 1], rooted)
  {
    var pre := cs[..|cs| - 1];
    assert forall i :: 0 <= i < |pre| ==> pre[i] == cs[i];
  }

  lemma SnocLast(cs: seq<string>)
    requires cs != []
    ensures cs == cs[..|cs| - 1] + [cs[|cs| - 1]]
  {
    var s := cs[..|cs| - 1] + [cs[|cs| - 1]];
    assert |cs| == |s|;
    forall i | 0 <= i < |cs| ensures cs[i] == s[i] { }
  }

  /** Components already in normal form are kept as they are. */
  lemma {:induction false} NormCompsFixed(cs: seq<string>, rooted: bool)
    requires NormalComps(cs, rooted)
    ensures NormComps(cs, rooted) == cs
    decreases |cs|
  {
    if cs != [] {
      var n := |cs|;
      var pre, c := cs[..n - 1], cs[n - 1];
      NormalPrefix(cs, rooted);
      NormCompsFixed(pre, rooted);
      if c == ".." && pre != [] { assert pre[|pre| - 1] == cs[n - 2]; }
      assert NormStep(pre, c, rooted) == pre + [c];
      SnocLast(cs);
    }
  }

  /** One more component is one more turn of the scan. */
  lemma NormCompsSnoc(pre: seq<string>, c: string, rooted: bool)
    ensures NormComps(pre + [c], rooted) == NormStep(NormComps(pre, rooted), c, rooted)
  {
    var all := pre + [c];
    assert all[..|all| - 1] == pre && all[|all| - 1] == c;
  }

  /** Empty components in front change nothing. */
  lemma {:induction false} NormCompsLeadingEmpty(es: seq<string>, cs: seq<string>, rooted: bool)
    requires forall i :: 0 <= i < |es| ==> es[i] == ""
    ensures NormComps(es + cs, rooted) == NormComps(cs, rooted)
    decreases |es| + |cs|
  {
    var all := es + cs;
    if cs == [] {
      assert all == es;
      if es != [] {
        var pre := es[..|es| - 1];
        NormCompsLeadingEmpty(pre, [], rooted);
        assert pre + [] == pre;
        assert NormComps(es, rooted) == NormStep(NormComps(pre, rooted), "", rooted);
      }
    } else {
      var n := |cs|;
      var pre, c := cs[..n - 1], cs[n - 1];
      SnocLast(cs);
      assert all == (es + pre) + [c];
      NormCompsLeadingEmpty(es, pre, rooted);
      NormCompsSnoc(es + pre, c, rooted);
      NormCompsSnoc(pre, c, rooted);
    }
  }

  lemma JoinHead(cs: seq<string>, sep: string)
    requires |cs| >= 1 && cs[0] != []
    ensures Join(cs, sep) != [] && Join(cs, sep)[0] == cs[0][0]
  {
  }

  /** The empty pieces that splitting the leading slashes `lead` on '/' gives. */
  function EmptyPieces(lead: string): (es: seq<string>)
    requires lead == "" || lead == "/" || lead == "//"
    ensures |es| == |lead| && forall i :: 0 <= i < |es| ==> es[i] == ""
  {
    if lead == "" then [] else if lead == "/" then [""] else ["", ""]
  }

  lemma SplitLead(lead: string, body: string)
    requires lead == "" || lead == "/" || lead == "//"
    ensures Split(lead + body, '/') == EmptyPieces(lead) + Split(body, '/')
  {
    if lead == "/" {
      SplitAfter("", '/', body);
      assert lead + body == "" + "/" + body;
    } else if lead == "//" {
      var once := "" + "/" + body;
      assert once == "/" + body;
      SplitAfter("", '/', body);
      SplitAfter("", '/', once);
      assert lead + body == "" + "/" + once;
      assert Split(lead + body, '/') == [""] + ([""] + Split(body, '/'));
      assert [""] + ([""] + Split(body, '/')) == ["", ""] + Split(body, '/');
      assert EmptyPieces(lead) == ["", ""];
    } else {
      assert lead + body == body && EmptyPieces(lead) == [];
    }
  }

  lemma LeadOf(lead: string, body: string)
    requires lead == "" || lead == "/" || lead == "//"
    requires lead + body != []
    requires body == [] || body[0] != '/'
    ensures LeadingSlashes(lead + body) == lead
  {
    var q := lead + body;
    if lead == "" {
      assert q[0] == body[0];
    } else if lead == "/" {
      assert q[0] == '/' && (|q| < 2 || q[1] != '/');
    } else {
      assert q[0] == '/' && q[1] == '/' && (|q| < 3 || q[2] != '/');
    }
  }

  /** The pieces of a normalised body: its components, or one empty piece for none. */
  lemma SplitBody(cs: seq<string>)
    requires forall i :: 0 <= i < |cs| ==> cs[i] != ""
    requires forall i :: 0 <= i < |cs| ==> '/' !in cs[i]
    ensures Split(Join(cs, "/"), '/') == (if cs == [] then [""] else cs)
    ensures Join(cs, "/") == [] <==> cs == []
    ensures Join(cs, "/") == [] || Join(cs, "/")[0] != '/'
  {
    if cs != [] {
      JoinHead(cs, "/");
      SplitJoin(cs, '/');
      assert cs[0][0] in cs[0];
    }
  }

  /** Normalising a normalised path changes nothing. */
  lemma NormPathIdempotent(p: string)
    ensures NormPath(NormPath(p)) == NormPath(p)
  {
    var lead := LeadingSlashes(p);
    var rooted := lead != "";
    var cs := NormComps(Split(p, '/'), rooted);
    var body := Join(cs, "/");
    if lead + body == [] {
      SplitNoSep(".", '/');
      assert NormComps(["."], false) == NormStep(NormComps([], false), ".", false);
    } else {
      var q := lead + body;
      assert forall i :: 0 <= i < |cs| ==> '/' !in cs[i];
      SplitBody(cs);
      SplitLead(lead, body);
      LeadOf(lead, body);
      var x := if cs == [] then [""] else cs;
      NormCompsLeadingEmpty(EmptyPieces(lead), x, rooted);
      NormCompsFixed(cs, rooted);
      assert NormComps(x, rooted) == cs by {
        if cs == [] { assert NormComps([""], rooted) == NormStep(NormComps([], rooted), "", rooted); }
      }
      assert NormComps(Split(q, '/'), rooted) == cs;
    }
  }

  /** `..` climbs out of the component before it: `/home/u/run/../out` is `/home/u/out`. */
  lemma NormCompsClimbs()
    ensures NormComps(["", "home", "u", "run", "..", "out"], true) == ["home", "u", "out"]
  {
    var a4: seq<string> := ["", "home", "u", "run"];
    var a5 := a4 + [".."];
    NormCompsDescends();
    NormCompsSnoc(a4, "..", true);
    assert ["home", "u", "run"][..2] == ["home", "u"];
    NormCompsSnoc(a5, "out", true);
    assert a5 + ["out"] == ["", "home", "u", "run", "..", "out"];
  }

  lemma NormCompsDescends()
    ensures NormComps(["", "home", "u", "run"], true) == ["home", "u", "run"]
  {
    var a2: seq<string> := ["", "home"];
    NormCompsSnoc([], "", true);
    NormCompsSnoc([""], "home", true);
    assert [""] + ["home"] == a2;
    NormCompsSnoc(a2, "u", true);
    NormCompsSnoc(a2 + ["u"], "run", true);
    assert a2 + ["u"] + ["run"] == ["", "home", "u", "run"];
  }

  /** A component `pathlib` keeps: neither empty nor `.`. */
  predicate PureComp(c: string) {
    c != "" && c != "."
  }

  /** The components `pathlib` keeps, in order: empty and `.` ones go, `..` stays. */
  function PureComps(comps: seq<string>): (r: seq<string>)
    ensures forall x :: x in r <==> x in comps && PureComp(x)
    decreases |comps|
  {
    if comps == [] then []
    else (if PureComp(comps[0]) then [comps[0]] else []) + PureComps(comps[1..])
  }

  /**
   * A path as `pathlib` holds it: its root (none, `/`, or `//`, kept exactly
   * as `normpath` keeps leading slashes) and its parts.
   */
  datatype PPath = PPath(root: string, parts: seq<string>)

  /** `PurePosixPath(p)`: the root and the parts that are neither empty nor `.`. */
  function ParsePath(p: string): (r: PPath)
    ensures r.root == "" || r.root == "/" || r.root == "//"
    ensures r.root == "" <==> !StartsWith(p, "/")
    ensures forall x :: x in r.parts <==> x in Split(p, '/') && PureComp(x)
  {
    PPath(LeadingSlashes(p), PureComps(Split(p, '/')))
  }

  /** `str(path)`: the root, then the parts joined by `/`; `.` for the empty path. */
  function PathStr(p: PPath): (r: string)
    ensures r != []
  {
    var s := p.root + Join(p.parts, "/");
    if s == [] then "." else s
  }

  /** `a / b`: a rooted `b` replaces `a`, otherwise the parts are appended. */
  function JoinPath(a: PPath, b: PPath): (r: PPath)
    ensures b.root != "" ==> r == b
    ensures b.root == "" ==> r.root == a.root && r.parts == a.parts + b.parts
  {
    if b.root != "" then b else PPath(a.root, a.parts + b.parts)
  }

  /** `a / s` with `s` a string: `s` is read as a path and joined. */
  function Slash(a: PPath, s: string): (r: PPath)
    ensures !StartsWith(s, "/") ==> r.root == a.root && r.parts == a.parts + ParsePath(s).parts
    ensures StartsWith(s, "/") ==> r == ParsePath(s)
  {
    JoinPath(a, ParsePath(s))
  }

  /** `a / name` for a name that is a single part. */
  function Child(a: PPath, name: string): (r: PPath)
    ensures r.root == a.root && |r.parts| == |a.parts| + 1
  {
    PPath(a.root, a.parts + [name])
  }

  /** A plain name, one with no `/` that is not `.` or empty, parses as a single part. */
  lemma ParseName(name: string)
    requires PureComp(name) && '/' !in name
    ensures ParsePath(name) == PPath("", [name])
  {
    SplitNoSep(name, '/');
    assert PureComps([name]) == [name] + PureComps([]);
    assert name[0] != '/';
  }

  /** Joining a plain name adds it as one part. */
  lemma SlashChild(a: PPath, name: string)
    requires PureComp(name) && '/' !in name
    ensures Slash(a, name) == Child(a, name)
  {
    ParseName(name);
  }

  /** A well-formed path with parts, spelled out, gains `/name` when `name` is joined. */
  lemma ChildStr(a: PPath, name: string)
    requires WellFormed(a) && a.parts != []
    ensures PathStr(Child(a, name)) == PathStr(a) + "/" + name
  {
    assert a.parts[0] != [];
    JoinHead(a.parts, "/");
    JoinSnoc(a.parts, name, "/");
    assert Join(a.parts + [name], "/") != [];
  }

  lemma {:induction false} JoinSnoc(cs: seq<string>, x: string, sep: string)
    requires cs != []
    ensures Join(cs + [x], sep) == Join(cs, sep) + sep + x
    decreases |cs|
  {
    if |cs| == 1 {
      assert cs + [x] == [cs[0], x];
      assert Join([x], sep) == x;
    } else {
      assert (cs + [x])[1..] == cs[1..] + [x];
      JoinSnoc(cs[1..], x, sep);
    }
  }

  /** `Path(p).name`: the last part, or none. */
  function PathName(p: PPath): (r: string)
    ensures p.parts != [] ==> r == p.parts[|p.parts| - 1]
    ensures p.parts == [] ==> r == ""
  {
    if p.parts == [] then "" else p.parts[|p.parts| - 1]
  }

  lemma {:induction false} PureCompsAppend(a: seq<string>, b: seq<string>)
    ensures PureComps(a + b) == PureComps(a) + PureComps(b)
    decreases |a|
  {
    if a != [] {
      assert (a + b)[0] == a[0] && (a + b)[1..] == a[1..] + b;
      PureCompsAppend(a[1..], b);
    } else {
      assert a + b == b;
    }
  }

  /** Components `pathlib` keeps are kept as they are. */
  lemma {:induction false} PureCompsFixed(cs: seq<string>)
    requires forall i :: 0 <= i < |cs| ==> PureComp(cs[i])
    ensures PureComps(cs) == cs
    decreases |cs|
  {
    if cs != [] {
      PureCompsFixed(cs[1..]);
      assert [cs[0]] + cs[1..] == cs;
    }
  }

  lemma PureCompsNone(es: seq<string>)
    requires forall i :: 0 <= i < |es| ==> !PureComp(es[i])
    ensures PureComps(es) == []
  {
  }

  /** A path as `pathlib` can hold it: a root of at most two slashes, parts that are plain names. */
  predicate WellFormed(p: PPath) {
    && (p.root == "" || p.root == "/" || p.root == "//")
    && forall i :: 0 <= i < |p.parts| ==> PureComp(p.parts[i]) && '/' !in p.parts[i]
  }

  /** Every parsed path is well formed. */
  lemma ParsedWellFormed(p: string)
    ensures WellFormed(ParsePath(p))
  {
    var r := ParsePath(p);
    forall i | 0 <= i < |r.parts| ensures PureComp(r.parts[i]) && '/' !in r.parts[i] {
      assert r.parts[i] in r.parts;
    }
  }

  /** Parsing the string form of a well-formed path gives the path back. */
  lemma PathStrRoundTrip(x: PPath)
    requires WellFormed(x)
    ensures ParsePath(PathStr(x)) == x
  {
    var lead := x.root;
    var cs := x.parts;
    var body := Join(cs, "/");
    if lead + body == [] {
      SplitNoSep(".", '/');
      assert PureComps(["."]) == [] + PureComps([]);
      assert cs == [] by {
        if cs != [] { JoinHead(cs, "/"); }
      }
    } else {
      LeadOf(lead, body) by { SplitBody(cs); if cs != [] { JoinHead(cs, "/"); } }
      PartsRoundTrip(x);
    }
  }

  /** The parts survive spelling out and splitting again. */
  lemma PartsRoundTrip(x: PPath)
    requires WellFormed(x)
    ensures PureComps(Split(x.root + Join(x.parts, "/"), '/')) == x.parts
  {
    var cs := x.parts;
    SplitBody(cs);
    SplitLead(x.root, Join(cs, "/"));
    var y := if cs == [] then [""] else cs;
    PureCompsAppend(EmptyPieces(x.root), y);
    PureCompsFixed(cs);
    PureCompsNone(EmptyPieces(x.root));
    assert PureComps(y) == cs by {
      if cs == [] { assert PureComps([""]) == [] + PureComps([]); }
    }
  }

  /** Parsing the string form of a parsed path gives the same path back. */
  lemma ParsePathStr(p: string)
    ensures ParsePath(PathStr(ParsePath(p))) == ParsePath(p)
  {
    ParsedWellFormed(p);
    PathStrRoundTrip(ParsePath(p));
  }

  /** `.` is the empty relative path. */
  lemma ParseDot()
    ensures ParsePath(".") == PPath("", [])
  {
    SplitNoSep(".", '/');
    assert PureComps(["."]) == [] + PureComps([]);
    assert !StartsWith(".", "/") by { assert "."[..1][0] == '.'; }
  }

  /** Index just past the last `/` of `p`, or 0 when there is none. */
  function AfterLastSlash(p: string): (k: nat)
    ensures k <= |p|
    ensures k > 0 ==> p[k - 1] == '/'
    ensures forall i :: k <= i < |p| ==> p[i] != '/'
    decreases |p|
  {
    if p == [] then 0
    else if p[|p| - 1] == '/' then |p|
    else AfterLastSlash(p[..|p| - 1])
  }

  /** `Path(p).parent` for a path without a trailing slash. */
  function Parent(p: string): string {
    var k := AfterLastSlash(p);
    if k == 0 then "." else if k == 1 then "/" else p[..k - 1]
  }

  /**
   * `Path(p).with_suffix(suffix)`: replace the final component's extension.
   * A dot that starts or ends the name begins no extension, so `t.` becomes
   * `t..xml`.
   */
  function WithSuffix(p: string, suffix: string): (r: string)
    ensures StartsWith(r, p[..AfterLastSlash(p)])
    ensures EndsWith(r, suffix)
  {
    var k := AfterLastSlash(p);
    var name := p[k..];
    var dot := LastDot(name);
    var stem := if 0 < dot < |name| - 1 then name[..dot] else name;
    p[..k] + stem + suffix
  }

  /** A name ending in a dot has no extension to replace: `t.` becomes `t..xml`. */
  lemma WithSuffixTrailingDot()
    ensures WithSuffix("t.", ".xml") == "t..xml"
  {
    assert AfterLastSlash("t.") == AfterLastSlash("t") == AfterLastSlash("") == 0;
    assert "t."[0..] == "t.";
    assert LastDot("t.") == 1;
  }

  /** Index of the last `.` of `s` (0 when none; a leading dot is not an extension). */
  function LastDot(s: string): (k: nat)
    ensures k < |s| || k == 0
    ensures k > 0 ==> s[k] == '.'
    decreases |s|
  {
    if s == [] then 0
    else if s[|s| - 1] == '.' then |s| - 1
    else LastDot(s[..|s| - 1])
  }

  // ---------------------------------------------------------------------
  // Python's string order and `sorted`

  /** `a < b` on Python strings: lexicographic by code point. */
  predicate Below(a: string, b: string)
    decreases |a|
  {
    if a == [] then b != []
    else b != [] && (a[0] < b[0] || (a[0] == b[0] && Below(a[1..], b[1..])))
  }

  lemma {:induction false} BelowIrreflexive(a: string)
    ensures !Below(a, a)
    decreases |a|
  {
    if a != [] { BelowIrreflexive(a[1..]); }
  }

  lemma {:induction false} BelowAsymmetric(a: string, b: string)
    ensures Below(a, b) ==> !Below(b, a)
    decreases |a|
  {
    if a != [] && b != [] { BelowAsymmetric(a[1..], b[1..]); }
  }

  lemma {:induction false} BelowTotal(a: string, b: string)
    ensures a == b || Below(a, b) || Below(b, a)
    decreases |a|
  {
    if a != [] && b != [] && a[0] == b[0] {
      BelowTotal(a[1..], b[1..]);
      if a[1..] == b[1..] {
        assert a == [a[0]] + a[1..] && b == [b[0]] + b[1..];
      }
    }
  }

  lemma {:induction false} BelowTransitive(a: string, b: string, c: string)
    requires Below(a, b) && Below(b, c)
    ensures Below(a, c)
    decreases |a|
  {
    if a != [] && a[0] == b[0] && b[0] == c[0] {
      BelowTransitive(a[1..], b[1..], c[1..]);
    }
  }

  /** "Not below" (that is, `>=`) is transitive. */
  lemma AtLeastTransitive(a: string, b: string, c: string)
    requires !Below(b, a) && !Below(c, b)
    ensures !Below(c, a)
  {
    BelowTotal(a, b);
    BelowTotal(b, c);
    if a != b && b != c {
      BelowTransitive(a, b, c);
      BelowAsymmetric(a, c);
    }
  }

  predicate Sorted(s: seq<string>) {
    forall i, j :: 0 <= i < j < |s| ==> !Below(s[j], s[i])
  }

  /** Insert `x` into a sorted sequence, before the first element not below it. */
  function Insert(x: string, s: seq<string>): (r: seq<string>)
    requires Sorted(s)
    ensures Sorted(r)
    ensures multiset(r) == multiset(s) + multiset{x}
    decreases |s|
  {
    if s == [] then [x]
    else if !Below(s[0], x) then
      InsertFront(x, s);
      [x] + s
    else
      var tail := Insert(x, s[1..]);
      assert multiset(s) == multiset{s[0]} + multiset(s[1..]) by { assert s == [s[0]] + s[1..]; }
      InsertBehind(x, s, tail);
      [s[0]] + tail
  }

  lemma InsertFront(x: string, s: seq<string>)
    requires Sorted(s) && s != [] && !Below(s[0], x)
    ensures Sorted([x] + s)
  {
    var r := [x] + s;
    forall i, j | 0 <= i < j < |r| ensures !Below(r[j], r[i]) {
      if i == 0 {
        if j > 1 { AtLeastTransitive(x, s[0], s[j - 1]); }
      }
    }
  }

  lemma InsertBehind(x: string, s: seq<string>, tail: seq<string>)
    requires Sorted(s) && s != [] && Below(s[0], x)
    requires Sorted(tail) && multiset(tail) == multiset(s[1..]) + multiset{x}
    ensures Sorted([s[0]] + tail)
  {
    var r := [s[0]] + tail;
    forall i, j | 0 <= i < j < |r| ensures !Below(r[j], r[i]) {
      if i == 0 {
        var y := r[j];
        assert y in multiset(tail);
        if y == x {
          BelowAsymmetric(s[0], x);
        } else {
          assert y in multiset(s[1..]);
          var k :| 1 <= k < |s| && s[k] == y by { assert y in s[1..]; }
        }
      }
    }
  }

  /** Python's `sorted` on a list of strings. */
  function Sort(s: seq<string>): (r: seq<string>)
    ensures Sorted(r)
    ensures multiset(r) == multiset(s)
    decreases |s|
  {
    if s == [] then []
    else
      assert multiset(s) == multiset(s[1..]) + multiset{s[0]} by { assert s == [s[0]] + s[1..]; }
      Insert(s[0], Sort(s[1..]))
  }

  /** The values of a list of results computed in order, or the first error. */
  function AllOk<T>(rs: seq<Result<T>>): (r: Result<seq<T>>)
    ensures r.Ok? ==> |r.value| == |rs| && forall i :: 0 <= i < |rs| ==> rs[i] == Ok(r.value[i])
    ensures r.Err? ==> exists i :: 0 <= i < |rs| && rs[i] == Err(r.error)
    decreases |rs|
  {
    if rs == [] then Ok([])
    else
      var pre := rs[..|rs| - 1];
      assert forall i :: 0 <= i < |pre| ==> pre[i] == rs[i];
      match AllOk(pre)
      case Err(e) => Err(e)
      case Ok(vs) =>
        match rs[|rs| - 1]
        case Err(e) => Err(e)
        case Ok(v) =>
          assert forall i :: 0 <= i < |vs| ==> (vs + [v])[i] == vs[i];
          Ok(vs + [v])
  }

  /** `[f(x) for x in xs]`. */
  function MapSeq<T>(xs: seq<string>, f: string -> T): (r: seq<T>)
    ensures |r| == |xs|
    ensures forall k :: 0 <= k < |xs| ==> r[k] == f(xs[k])
  {
    seq(|xs|, k requires 0 <= k < |xs| => f(xs[k]))
  }

  /** Mapping one more element appends its image. */
  lemma MapSeqSnoc<T>(xs: seq<string>, f: string -> T, i: nat)
    requires i < |xs|
    ensures MapSeq(xs[..i + 1], f) == MapSeq(xs[..i], f) + [f(xs[i])]
  {
    var a := MapSeq(xs[..i + 1], f);
    var b := MapSeq(xs[..i], f) + [f(xs[i])];
    forall k | 0 <= k < |a| ensures a[k] == b[k] {
      assert xs[..i + 1][k] == xs[k];
      if k < i { assert xs[..i][k] == xs[k]; }
    }
  }

  /** Keep the elements satisfying `p`, in order (a list comprehension with a filter). */
  function Filter(s: seq<string>, p: string -> bool): (r: seq<string>)
    ensures |r| <= |s|
    ensures forall x :: x in r <==> x in s && p(x)
    decreases |s|
  {
    if s == [] then []
    else if p(s[0]) then [s[0]] + Filter(s[1..], p)
    else Filter(s[1..], p)
  }

  /** Filtering keeps a sorted sequence sorted (it keeps a subsequence). */
  lemma {:induction false} FilterSorted(s: seq<string>, p: string -> bool)
    requires Sorted(s)
    ensures Sorted(Filter(s, p))
    decreases |s|
  {
    if s != [] {
      FilterSorted(s[1..], p);
      var rest := Filter(s[1..], p);
      if p(s[0]) {
        var r := [s[0]] + rest;
        forall i, j | 0 <= i < j < |r| ensures !Below(r[j], r[i]) {
          if i == 0 {
            assert r[j] in s[1..];
            var k :| 0 <= k < |s[1..]| && s[1..][k] == r[j];
            assert s[k + 1] == r[j];
          }
        }
      }
    }
  }

  // ---------------------------------------------------------------------
  // sorted() of a set of keys

  /** `x` is the least element of `s` in string order. */
  predicate IsLeast(x: string, s: set<string>) {
    x in s && forall y :: y in s ==> !Below(y, x)
  }

  lemma {:induction false} LeastExists(s: set<string>)
    requires s != {}
    ensures exists x :: IsLeast(x, s)
    decreases |s|
  {
    var a :| a in s;
    if s == {a} {
      BelowIrreflexive(a);
      assert IsLeast(a, s);
    } else {
      LeastExists(s - {a});
      var b :| IsLeast(b, s - {a});
      BelowTotal(a, b);
      if Below(a, b) {
        forall y | y in s ensures !Below(y, a) {
          if y == a { BelowIrreflexive(a); }
          else if Below(y, a) { BelowTransitive(y, a, b); }
        }
        assert IsLeast(a, s);
      } else {
        assert IsLeast(b, s);
      }
    }
  }

  lemma LeastUnique(s: set<string>)
    ensures forall x, y :: IsLeast(x, s) && IsLeast(y, s) ==> x == y
  {
    forall x, y | IsLeast(x, s) && IsLeast(y, s) ensures x == y {
      BelowTotal(x, y);
    }
  }

  function Least(s: set<string>): (x: string)
    requires s != {}
    ensures IsLeast(x, s)
  {
    LeastExists(s);
    LeastUnique(s);
    var x :| IsLeast(x, s); x
  }

  /** `sorted(keys)`: the elements of `s` in increasing order. */
  function SortedKeys(s: set<string>): (r: seq<string>)
    ensures |r| == |s|
    ensures forall x :: x in r <==> x in s
    ensures Sorted(r)
    decreases |s|
  {
    if s == {} then []
    else
      var m := Least(s);
      var rest := SortedKeys(s - {m});
      assert Sorted([m] + rest) by {
        forall i, j | 0 <= i < j < |[m] + rest| ensures !Below(([m] + rest)[j], ([m] + rest)[i]) {
          if i == 0 { assert ([m] + rest)[j] == rest[j - 1]; assert rest[j - 1] in rest; }
          else { assert ([m] + rest)[j] == rest[j - 1] && ([m] + rest)[i] == rest[i - 1]; }
        }
      }
      [m] + rest
  }
}
