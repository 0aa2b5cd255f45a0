/**
 * The environment checks of `testr/test_helper.py`, which skip rules refer to
 * by name. The host they query (platform name, environment variables, the
 * filesystem, the host's IP address, `sys.maxsize`) is an explicit `Env` value.
 */
module TestHelper {
  import opened Common

  datatype PathKind = RegularFile | Directory

  datatype Env = Env(
    system: string,                   // platform.system()
    environ: map<string, string>,     // os.environ
    ownHome: Option<string>,          // the password entry's home of the current user, if any
    homes: map<string, string>,       // the password database: user name to home directory
    paths: map<string, PathKind>,     // the paths that exist, as spelled
    hostIp: Option<string>,           // None when the hostname lookup raises
    maxsize: int)                     // sys.maxsize

  // ---------------------------------------------------------------------
  // os.path.expandvars and os.path.expanduser (POSIX)

  /** A character of `\w` under `re.ASCII`. */
  predicate IsWordChar(c: char) {
    'a' <= c <= 'z' || 'A' <= c <= 'Z' || '0' <= c <= '9' || c == '_'
  }

  /** The length of the run of word characters that `s` begins with. */
  function WordRun(s: string): (n: nat)
    ensures n <= |s|
    ensures forall i :: 0 <= i < n ==> IsWordChar(s[i])
    ensures n < |s| ==> !IsWordChar(s[n])
    decreases |s|
  {
    if s != [] && IsWordChar(s[0]) then 1 + WordRun(s[1..]) else 0
  }

  /** The index of the first '}' in `s`. */
  function CloseBrace(s: string): (r: Option<nat>)
    ensures r.Some? ==> r.value < |s| && s[r.value] == '}' && '}' !in s[..r.value]
    ensures r.None? ==> '}' !in s
    decreases |s|
  {
    if s == [] then None
    else if s[0] == '}' then Some(0)
    else match CloseBrace(s[1..])
      case None => None
      case Some(k) => assert s[..k + 1] == [s[0]] + s[1..][..k]; Some(k + 1)
  }

  /**
   * The variable reference `$name` or `${name}` that `s` (beginning with '$')
   * starts with: the name and the length of the reference, or None when
   * neither form follows the dollar sign.
   */
  function VarRef(s: string): (r: Option<(string, nat)>)
    requires s != [] && s[0] == '$'
    ensures r.Some? ==> 2 <= r.value.1 <= |s|
  {
    var n := WordRun(s[1..]);
    if n > 0 then Some((s[1..1 + n], 1 + n))
    else if |s| >= 2 && s[1] == '{' then
      match CloseBrace(s[2..])
      case Some(k) => Some((s[2..2 + k], k + 3))
      case None => None
    else None
  }

  /**
   * `os.path.expandvars(s)` with the environment `environ`: each reference to
   * a variable that is set is replaced by its value, a reference to one that
   * is not is kept as written, and a value put in is not scanned again.
   */
  function ExpandVars(s: string, environ: map<string, string>): (r: string)
    ensures '$' !in s ==> r == s
    decreases |s|
  {
    if s == [] then []
    else if s[0] != '$' then [s[0]] + ExpandVars(s[1..], environ)
    else match VarRef(s)
      case None => "$" + ExpandVars(s[1..], environ)
      case Some((name, n)) =>
        (if name in environ then environ[name] else s[..n]) + ExpandVars(s[n..], environ)
  }

  /** One reference found at the start of `s`: its replacement, then the rest expanded. */
  lemma ExpandVarsAt(s: string, environ: map<string, string>, name: string, n: nat)
    requires s != [] && s[0] == '$' && VarRef(s) == Some((name, n))
    ensures ExpandVars(s, environ) == (if name in environ then environ[name] else s[..n]) + ExpandVars(s[n..], environ)
  {
  }

  /** `$name` followed by a character that cannot continue the name. */
  lemma ExpandVarsName(name: string, rest: string, environ: map<string, string>)
    requires name != [] && forall i :: 0 <= i < |name| ==> IsWordChar(name[i])
    requires rest == [] || !IsWordChar(rest[0])
    ensures ExpandVars("$" + name + rest, environ)
         == (if name in environ then environ[name] else "$" + name) + ExpandVars(rest, environ)
  {
    var s := "$" + name + rest;
    VarRefName(name, rest);
    ExpandVarsAt(s, environ, name, 1 + |name|);
    assert s[..1 + |name|] == "$" + name && s[1 + |name|..] == rest;
  }

  lemma VarRefName(name: string, rest: string)
    requires name != [] && forall i :: 0 <= i < |name| ==> IsWordChar(name[i])
    requires rest == [] || !IsWordChar(rest[0])
    ensures VarRef("$" + name + rest) == Some((name, 1 + |name|))
  {
    var s := "$" + name + rest;
    assert s[1..] == name + rest;
    WordRunOf(name, rest);
    assert s[1..1 + |name|] == name;
  }

  lemma {:induction false} WordRunOf(name: string, rest: string)
    requires forall i :: 0 <= i < |name| ==> IsWordChar(name[i])
    requires rest == [] || !IsWordChar(rest[0])
    ensures WordRun(name + rest) == |name|
    decreases |name|
  {
    if name != [] {
      assert (name + rest)[1..] == name[1..] + rest;
      WordRunOf(name[1..], rest);
    } else {
      assert name + rest == rest;
    }
  }

  /** `${name}`, whatever follows it. */
  lemma ExpandVarsBraced(name: string, rest: string, environ: map<string, string>)
    requires '}' !in name
    ensures ExpandVars("${" + name + "}" + rest, environ)
         == (if name in environ then environ[name] else "${" + name + "}") + ExpandVars(rest, environ)
  {
    var s := "${" + name + "}" + rest;
    VarRefBraced(name, rest);
    ExpandVarsAt(s, environ, name, |name| + 3);
    assert s[..|name| + 3] == "${" + name + "}" && s[|name| + 3..] == rest;
  }

  lemma VarRefBraced(name: string, rest: string)
    requires '}' !in name
    ensures VarRef("${" + name + "}" + rest) == Some((name, |name| + 3))
  {
    var s := "${" + name + "}" + rest;
    assert s[1..][0] == '{';
    assert WordRun(s[1..]) == 0;
    var t := s[2..];
    assert t == name + "}" + rest;
    assert t[|name|] == '}' && t[..|name|] == name;
    assert s[2..2 + |name|] == name;
  }

  /** `home.rstrip('/')`. */
  function RStripSlash(home: string): (r: string)
    ensures r == [] || r[|r| - 1] != '/'
    ensures StartsWith(home, r)
    decreases |home|
  {
    if home != [] && home[|home| - 1] == '/' then RStripSlash(home[..|home| - 1]) else home
  }

  /** The index of the first '/' in `s` at or after `from`, or `|s|` when there is none. */
  function SlashFrom(s: string, from: nat): (i: nat)
    requires from <= |s|
    ensures from <= i <= |s|
    ensures i < |s| ==> s[i] == '/'
    ensures forall j :: from <= j < i ==> s[j] != '/'
    decreases |s| - from
  {
    if from == |s| || s[from] == '/' then from else SlashFrom(s, from + 1)
  }

  /**
   * `os.path.expanduser(s)`: a leading `~` (the current user: `$HOME`, else
   * the password entry) or `~user` (that user's password entry), up to the
   * first '/', is replaced by the home directory without trailing slashes; the
   * path is kept as written when it has no leading `~` or the home is unknown,
   * and an empty result becomes "/".
   */
  function ExpandUser(s: string, env: Env): (r: string)
    ensures s == [] || s[0] != '~' ==> r == s
    ensures s != [] && s[0] == '~' && r != s ==>
              var i := SlashFrom(s, 1);
              r != [] && EndsWith(r, s[i..])
  {
    if s == [] || s[0] != '~' then s
    else
      var i := SlashFrom(s, 1);
      var home :=
        if i == 1 then (if "HOME" in env.environ then Some(env.environ["HOME"]) else env.ownHome)
        else if s[1..i] in env.homes then Some(env.homes[s[1..i]])
        else None;
      match home
      case None => s
      case Some(h) =>
        var t := RStripSlash(h) + s[i..];
        if t == [] then "/" else t
  }

  /** `os.path.expanduser(os.path.expandvars(path))`, as both path checks apply it. */
  function Expand(env: Env, path: string): string {
    ExpandUser(ExpandVars(path, env.environ), env)
  }

  /** `~/rest` with `$HOME` set to a home without trailing slash: the home, then `/rest`. */
  lemma ExpandUserHome(env: Env, rest: string)
    requires "HOME" in env.environ
    requires env.environ["HOME"] == [] || env.environ["HOME"][|env.environ["HOME"]| - 1] != '/'
    ensures ExpandUser("~/" + rest, env) == env.environ["HOME"] + "/" + rest
  {
    var s := "~/" + rest;
    assert SlashFrom(s, 1) == 1;
    assert s[1..] == "/" + rest;
  }

  // ---------------------------------------------------------------------
  // The checks

  /** `has_paths(*paths)`: every path exists once expanded (so true for no paths). */
  function HasPaths(env: Env, paths: seq<string>): (r: bool)
    ensures r <==> forall i :: 0 <= i < |paths| ==> Expand(env, paths[i]) in env.paths
  {
    if paths == [] then true
    else if Expand(env, paths[0]) !in env.paths then false
    else HasPaths(env, paths[1..])
  }

  /** The path exists and is a directory. */
  predicate IsDir(env: Env, path: string) {
    path in env.paths && env.paths[path] == Directory
  }

  /** `has_dirs(*paths)`: every path exists once expanded and is a directory. */
  function HasDirs(env: Env, paths: seq<string>): (r: bool)
    ensures r <==> forall i :: 0 <= i < |paths| ==> IsDir(env, Expand(env, paths[i]))
  {
    if paths == [] then true
    else if !IsDir(env, Expand(env, paths[0])) then false
    else HasDirs(env, paths[1..])
  }

  /**
   * A path that starts with a set variable and goes on with a '/' and no other
   * reference exists when the variable's value followed by the rest does:
   * `has_paths('$SYBASE/lib')` asks for `/opt/syb/lib` when SYBASE is `/opt/syb`.
   */
  lemma HasPathsVariable(env: Env, name: string, rest: string)
    requires name != [] && forall i :: 0 <= i < |name| ==> IsWordChar(name[i])
    requires name in env.environ && (env.environ[name] == [] || env.environ[name][0] != '~')
    requires rest != [] && rest[0] == '/' && '$' !in rest
    ensures HasPaths(env, ["$" + name + rest]) <==> env.environ[name] + rest in env.paths
  {
    ExpandVarsName(name, rest, env.environ);
    assert ExpandVars("$" + name + rest, env.environ) == env.environ[name] + rest;
    assert (env.environ[name] + rest)[0] != '~';
  }

  /** A directory check implies the existence check. */
  lemma {:induction false} HasDirsImpliesHasPaths(env: Env, paths: seq<string>)
    ensures HasDirs(env, paths) ==> HasPaths(env, paths)
    decreases |paths|
  {
    if paths != [] { HasDirsImpliesHasPaths(env, paths[1..]); }
  }

  /** `is_linux()`. */
  predicate IsLinux(env: Env)
    ensures IsLinux(env) ==> env.system != "Windows" && env.system != "Darwin"
  {
    env.system == "Linux"
  }

  /** `is_mac()`. */
  predicate IsMac(env: Env)
    ensures IsMac(env) ==> !IsLinux(env) && env.system != "Windows"
  {
    env.system == "Darwin"
  }

  /** `is_windows()`. */
  predicate IsWindows(env: Env)
    ensures IsWindows(env) ==> !IsMac(env) && !IsLinux(env)
  {
    env.system == "Windows"
  }

  /** At most one of the three platform checks holds. */
  lemma PlatformsExclusive(env: Env)
    ensures !(IsWindows(env) && IsMac(env))
    ensures !(IsWindows(env) && IsLinux(env))
    ensures !(IsMac(env) && IsLinux(env))
  {
  }

  /** `$SYBASE/$SYBASE_OCS/python/python34_64r/lib/sybpydb.so`. */
  function SybaseLibrary(sybase: string, ocs: string): string {
    PathJoin(PathJoin(PathJoin(PathJoin(PathJoin(sybase, ocs), "python"), "python34_64r"), "lib"),
             "sybpydb.so")
  }

  /** `has_sybase()`: both variables are set and the Python library exists. */
  function HasSybase(env: Env): (r: bool)
    ensures !("SYBASE" in env.environ && "SYBASE_OCS" in env.environ) ==> !r
    ensures "SYBASE" in env.environ && "SYBASE_OCS" in env.environ ==>
              (r <==> SybaseLibrary(env.environ["SYBASE"], env.environ["SYBASE_OCS"]) in env.paths)
  {
    if "SYBASE" in env.environ && "SYBASE_OCS" in env.environ then
      SybaseLibrary(env.environ["SYBASE"], env.environ["SYBASE_OCS"]) in env.paths
    else false
  }

  /** The head-network subnets: 131.142.52.x and 131.142.184.x. */
  predicate HeadSubnet(octets: seq<string>) {
    |octets| >= 3 && octets[0] == "131" && octets[1] == "142" && (octets[2] == "52" || octets[2] == "184")
  }

  /**
   * `on_head_network()`. A failed lookup gives false. The octets are compared
   * left to right and the comparison stops at the first mismatch, so an
   * address with too few dots raises IndexError only when its leading
   * octets match.
   */
  function OnHeadNetwork(env: Env): (r: Result<bool>)
    ensures env.hostIp.None? ==> r == Ok(false)
    ensures r == Ok(true) <==> env.hostIp.Some? && HeadSubnet(Split(env.hostIp.value, '.'))
    ensures env.hostIp.Some? && |Split(env.hostIp.value, '.')| >= 3 ==> r.Ok?
  {
    match env.hostIp
    case None => Ok(false)
    case Some(ip) =>
      var octets := Split(ip, '.');
      if octets[0] != "131" then Ok(false)
      else if |octets| < 2 then Err(IndexError)
      else if octets[1] != "142" then Ok(false)
      else if |octets| < 3 then Err(IndexError)
      else Ok(octets[2] == "52" || octets[2] == "184")
  }

  /**
   * `is_32_bit()`. A build whose `sys.maxsize` is that of a 32-bit word
   * (2^31 - 1) counts as 32-bit; one with a 64-bit word (2^63 - 1) does not.
   */
  predicate Is32Bit(env: Env)
    ensures env.maxsize == 0x7fff_ffff ==> Is32Bit(env)
    ensures env.maxsize == 0x7fff_ffff_ffff_ffff ==> !Is32Bit(env)
  {
    env.maxsize <= 0x1_0000_0000
  }

  // ---------------------------------------------------------------------
  // The registry that skip rules name checks from

  datatype Check =
    | HasPathsCheck | HasDirsCheck | IsWindowsCheck | IsMacCheck
    | IsLinuxCheck | HasSybaseCheck | OnHeadNetworkCheck | Is32BitCheck

  /** The module-level name a check is registered under. */
  function CheckName(c: Check): string {
    match c
    case HasPathsCheck => "has_paths"
    case HasDirsCheck => "has_dirs"
    case IsWindowsCheck => "is_windows"
    case IsMacCheck => "is_mac"
    case IsLinuxCheck => "is_linux"
    case HasSybaseCheck => "has_sybase"
    case OnHeadNetworkCheck => "on_head_network"
    case Is32BitCheck => "is_32_bit"
  }

  /**
   * What a module-level name of `test_helper` is bound to: one of the checks,
   * the `Path` class it imports from `pathlib`, or one of the modules it
   * imports (`sys`, `os`, `socket`, `platform`).
   */
  datatype Attr = Helper(check: Check) | PathClass | ImportedModule(name: string)

  /** The modules `test_helper` imports whole. */
  predicate IsImportedModule(name: string) {
    name == "sys" || name == "os" || name == "socket" || name == "platform"
  }

  /** `getattr(test_helper, name)`, None when the module has no such attribute. */
  function Lookup(name: string): (r: Option<Attr>)
    ensures r.Some? && r.value.Helper? ==> CheckName(r.value.check) == name
    ensures r == Some(PathClass) <==> name == "Path"
    ensures r == Some(ImportedModule(name)) <==> IsImportedModule(name)
  {
    if name == "has_paths" then Some(Helper(HasPathsCheck))
    else if name == "has_dirs" then Some(Helper(HasDirsCheck))
    else if name == "is_windows" then Some(Helper(IsWindowsCheck))
    else if name == "is_mac" then Some(Helper(IsMacCheck))
    else if name == "is_linux" then Some(Helper(IsLinuxCheck))
    else if name == "has_sybase" then Some(Helper(HasSybaseCheck))
    else if name == "on_head_network" then Some(Helper(OnHeadNetworkCheck))
    else if name == "is_32_bit" then Some(Helper(Is32BitCheck))
    else if name == "Path" then Some(PathClass)
    else if IsImportedModule(name) then Some(ImportedModule(name))
    else None
  }

  /** Every registered check is found under its own name. */
  lemma LookupFindsEveryCheck(c: Check)
    ensures Lookup(CheckName(c)) == Some(Helper(c))
  {
    match c
    case HasPathsCheck =>
    case HasDirsCheck =>
    case IsWindowsCheck =>
    case IsMacCheck =>
    case IsLinuxCheck =>
    case HasSybaseCheck =>
    case OnHeadNetworkCheck =>
    case Is32BitCheck =>
  }

  /**
   * `check(*args)`. The path checks take any number of arguments; the others
   * take none, and Python raises TypeError when given some.
   */
  function Call(c: Check, args: seq<string>, env: Env): (r: Result<bool>)
    ensures c == HasPathsCheck ==> r == Ok(HasPaths(env, args))
    ensures c == HasDirsCheck ==> r == Ok(HasDirs(env, args))
    ensures c !in {HasPathsCheck, HasDirsCheck} && args != [] ==> r.Err? && r.error.TypeError?
  {
    match c
    case HasPathsCheck => Ok(HasPaths(env, args))
    case HasDirsCheck => Ok(HasDirs(env, args))
    case _ =>
      if args != [] then Err(TypeError(CheckName(c) + "() takes 0 positional arguments"))
      else
        match c
        case IsWindowsCheck => Ok(IsWindows(env))
        case IsMacCheck => Ok(IsMac(env))
        case IsLinuxCheck => Ok(IsLinux(env))
        case HasSybaseCheck => Ok(HasSybase(env))
        case OnHeadNetworkCheck => OnHeadNetwork(env)
        case Is32BitCheck => Ok(Is32Bit(env))
  }

  /**
   * Calling what `getattr` found with the rule's arguments: a check as above;
   * the `Path` class builds a path object, which is always true; a module is
   * not callable and raises TypeError.
   */
  function CallAttr(a: Attr, args: seq<string>, env: Env): (r: Result<bool>)
    ensures a.Helper? ==> r == Call(a.check, args, env)
    ensures a.PathClass? ==> r == Ok(true)
    ensures a.ImportedModule? ==> r == Err(TypeError("'module' object is not callable"))
  {
    match a
    case Helper(c) => Call(c, args, env)
    case PathClass => Ok(true)
    case ImportedModule(_) => Err(TypeError("'module' object is not callable"))
  }
}
