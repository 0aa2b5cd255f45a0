/**
 * `testr/setup_helper.py`: the `python setup.py test` command and the
 * helper that duplicates a package listing under a second name.
 *
 * The command object keeps the `--args` option text in a field and, when
 * run, hands pytest the warning filters followed by the split option text.
 * `duplicate_package_info` updates a list or a dictionary in place while
 * looping over a snapshot of its original entries. `shlex.split` and
 * `pytest.main` are parameters of the model; the regular expression
 * `^name_in` is modelled for a literal `name_in`.
 */
module SetupHelper {
  import opened Common
  import Runner

  // ---------------------------------------------------------------------
  // The `test` command

  /** The argument list `run_tests` hands pytest for the option text `opt`. */
  function PyTestArgs(opt: string, shlexSplit: string -> seq<string>): seq<string> {
    Runner.IgnoreWarnings + (if opt != "" then shlexSplit(opt) else [])
  }

  /** The warning filters come first, then the split option text and nothing else. */
  lemma PyTestArgsOrder(opt: string, shlexSplit: string -> seq<string>)
    ensures |PyTestArgs(opt, shlexSplit)| >= |Runner.IgnoreWarnings|
    ensures PyTestArgs(opt, shlexSplit)[..|Runner.IgnoreWarnings|] == Runner.IgnoreWarnings
    ensures opt == "" ==> PyTestArgs(opt, shlexSplit) == Runner.IgnoreWarnings
    ensures opt != "" ==> PyTestArgs(opt, shlexSplit)[|Runner.IgnoreWarnings|..] == shlexSplit(opt)
  {
    var w := Runner.IgnoreWarnings;
    var user := if opt != "" then shlexSplit(opt) else [];
    assert PyTestArgs(opt, shlexSplit) == w + user;
    assert (w + user)[..|w|] == w;
    assert (w + user)[|w|..] == user;
  }

  /** The setuptools command class registered as `test`. */
  class PyTest {
    /** The `--args` option text; the empty text stands for the unset option. */
    var args: string

    /** `initialize_options`: no arguments yet. */
    constructor ()
      ensures args == ""
    {
      args := "";
    }

    /** `run_tests`: run pytest and leave with `sys.exit` of its exit code. */
    method RunTests(shlexSplit: string -> seq<string>, pytestMain: seq<string> -> int)
      returns (exit: Error)
      ensures exit == SystemExit(pytestMain(PyTestArgs(args, shlexSplit)))
    {
      var argv := Runner.IgnoreWarnings;
      if args != "" {
        argv := argv + shlexSplit(args);
      }
      assert argv == PyTestArgs(args, shlexSplit);
      var errno := pytestMain(argv);
      exit := SystemExit(errno);
    }
  }

  /** `cmdclass`: the `setup()` command table, by command name. */
  const CmdClass: map<string, string> := map["test" := "PyTest"]

  // ---------------------------------------------------------------------
  // Renaming

  /** `re.sub("^" + nameIn, nameOut, name)` for a literal `nameIn`. */
  function SubPrefix(nameIn: string, nameOut: string, name: string): (r: string)
    ensures StartsWith(name, nameIn) ==> StartsWith(r, nameOut) && |r| == |name| - |nameIn| + |nameOut|
    ensures !StartsWith(name, nameIn) ==> r == name
  {
    if StartsWith(name, nameIn) then nameOut + name[|nameIn|..] else name
  }

  /**
   * Only the start of the name is rewritten: the rest is kept, and renaming
   * back undoes the renaming.
   */
  lemma SubPrefixRoundTrip(nameIn: string, nameOut: string, name: string)
    requires StartsWith(name, nameIn)
    ensures SubPrefix(nameIn, nameOut, name)[|nameOut|..] == name[|nameIn|..]
    ensures SubPrefix(nameOut, nameIn, SubPrefix(nameIn, nameOut, name)) == name
  {
    var r := SubPrefix(nameIn, nameOut, name);
    assert r == nameOut + name[|nameIn|..];
    assert r[|nameOut|..] == name[|nameIn|..];
    assert name == nameIn + name[|nameIn|..];
  }

  /** Two names that both start with `nameIn` keep distinct new names. */
  lemma SubPrefixInjective(nameIn: string, nameOut: string, a: string, b: string)
    requires StartsWith(a, nameIn) && StartsWith(b, nameIn)
    requires SubPrefix(nameIn, nameOut, a) == SubPrefix(nameIn, nameOut, b)
    ensures a == b
  {
    SubPrefixRoundTrip(nameIn, nameOut, a);
    SubPrefixRoundTrip(nameIn, nameOut, b);
  }

  /** Each name of `names`, renamed. */
  function Renamed(names: seq<string>, nameIn: string, nameOut: string): (r: seq<string>)
    ensures |r| == |names|
  {
    seq(|names|, i requires 0 <= i < |names| => SubPrefix(nameIn, nameOut, names[i]))
  }

  // ---------------------------------------------------------------------
  // Duplicating a list

  /** A Python list of package names. */
  class NameList {
    var items: seq<string>

    constructor (items0: seq<string>)
      ensures items == items0
    {
      items := items0;
    }

    /** `list.append`. */
    method Append(x: string)
      modifies this
      ensures items == old(items) + [x]
    {
      items := items + [x];
    }
  }

  /** `duplicate_package_info` on a list: the renamed copies of the original entries, appended. */
  function DuplicatedList(names: seq<string>, nameIn: string, nameOut: string): seq<string> {
    names + Renamed(names, nameIn, nameOut)
  }

  /**
   * `duplicate_package_info` on a list: one new entry per original entry, in
   * the original order, from a snapshot taken before the first append.
   */
  method DuplicateList(vals: NameList, nameIn: string, nameOut: string)
    modifies vals
    ensures vals.items == DuplicatedList(old(vals.items), nameIn, nameOut)
  {
    var names := vals.items;
    for i := 0 to |names|
      invariant vals.items == names + Renamed(names[..i], nameIn, nameOut)
    {
      var newName := SubPrefix(nameIn, nameOut, names[i]);
      RenamedStep(names, i, nameIn, nameOut);
      vals.Append(newName);
    }
    assert names[..|names|] == names;
  }

  /** Renaming one more name of a prefix appends its new name. */
  lemma RenamedStep(names: seq<string>, i: nat, nameIn: string, nameOut: string)
    requires i < |names|
    ensures Renamed(names[..i + 1], nameIn, nameOut)
         == Renamed(names[..i], nameIn, nameOut) + [SubPrefix(nameIn, nameOut, names[i])]
  {
    var a := Renamed(names[..i + 1], nameIn, nameOut);
    var b := Renamed(names[..i], nameIn, nameOut) + [SubPrefix(nameIn, nameOut, names[i])];
    assert |a| == |b|;
    forall k | 0 <= k < |a| ensures a[k] == b[k] {
      assert names[..i + 1][k] == names[k];
      if k < i {
        assert names[..i][k] == names[k];
      }
    }
  }

  /**
   * The list doubles: the originals are unchanged and in place, and the
   * entry `|names| + i` is the renamed entry `i`, which differs from it only
   * when `nameIn` starts it.
   */
  lemma DuplicatedListRule(names: seq<string>, nameIn: string, nameOut: string)
    ensures |DuplicatedList(names, nameIn, nameOut)| == 2 * |names|
    ensures DuplicatedList(names, nameIn, nameOut)[..|names|] == names
    ensures forall i :: 0 <= i < |names| ==>
      DuplicatedList(names, nameIn, nameOut)[|names| + i] == SubPrefix(nameIn, nameOut, names[i])
    ensures forall i :: 0 <= i < |names| && !StartsWith(names[i], nameIn) ==>
      DuplicatedList(names, nameIn, nameOut)[|names| + i] == names[i]
  {
    var d := DuplicatedList(names, nameIn, nameOut);
    assert d[..|names|] == names;
  }

  // ---------------------------------------------------------------------
  // Duplicating a dictionary

  /** A Python dictionary keyed by package name: the keys in insertion order and the values. */
  class NameDict<V> {
    var keys: seq<string>
    var values: map<string, V>

    /** The keys listed are the keys mapped, each once. */
    ghost predicate Valid()
      reads this
    {
      Distinct(keys) && (forall k :: k in values <==> k in keys)
    }

    constructor (keys0: seq<string>, values0: map<string, V>)
      requires Distinct(keys0) && (forall k :: k in values0 <==> k in keys0)
      ensures keys == keys0 && values == values0 && Valid()
    {
      keys := keys0;
      values := values0;
    }

    /** `d[k] = v`: a new key goes last, an existing one keeps its place. */
    method Store(k: string, v: V)
      requires Valid()
      modifies this
      ensures keys == StoredKeys(old(keys), k) && values == old(values)[k := v] && Valid()
    {
      if k !in keys {
        keys := keys + [k];
      }
      values := values[k := v];
    }
  }

  /** No string occurs twice. */
  predicate Distinct(s: seq<string>) {
    forall i, j :: 0 <= i < j < |s| ==> s[i] != s[j]
  }

  /** The key order after storing `k`. */
  function StoredKeys(keys: seq<string>, k: string): (r: seq<string>)
    ensures Distinct(keys) ==> Distinct(r)
    ensures forall x :: x in r <==> x in keys || x == k
  {
    if k in keys then keys else keys + [k]
  }

  /**
   * The values after `duplicate_package_info` has visited `names` in
   * order, each step copying the value stored under the name (as it is at
   * that step) to the renamed key.
   */
  function DuplicatedValues<V>(values: map<string, V>, names: seq<string>, nameIn: string, nameOut: string)
    : (r: map<string, V>)
    requires forall i :: 0 <= i < |names| ==> names[i] in values
    ensures values.Keys <= r.Keys
    decreases |names|
  {
    if names == [] then values
    else
      var m := DuplicatedValues(values, names[..|names| - 1], nameIn, nameOut);
      var last := names[|names| - 1];
      m[SubPrefix(nameIn, nameOut, last) := m[last]]
  }

  /** The key order after `duplicate_package_info` has visited `names` in order. */
  function DuplicatedKeys(keys: seq<string>, names: seq<string>, nameIn: string, nameOut: string)
    : (r: seq<string>)
    decreases |names|
  {
    if names == [] then keys
    else StoredKeys(DuplicatedKeys(keys, names[..|names| - 1], nameIn, nameOut),
                    SubPrefix(nameIn, nameOut, names[|names| - 1]))
  }

  /**
   * `duplicate_package_info` on a dictionary: every original key, in the
   * original order and from a snapshot, stores its current value under the
   * renamed key.
   */
  method DuplicateDict<V>(vals: NameDict<V>, nameIn: string, nameOut: string)
    requires vals.Valid()
    modifies vals
    ensures vals.Valid()
    ensures vals.keys == DuplicatedKeys(old(vals.keys), old(vals.keys), nameIn, nameOut)
    ensures vals.values == DuplicatedValues(old(vals.values), old(vals.keys), nameIn, nameOut)
  {
    var names := vals.keys;
    ghost var values0 := vals.values;
    for i := 0 to |names|
      invariant vals.Valid()
      invariant forall k :: 0 <= k < |names| ==> names[k] in values0
      invariant vals.keys == DuplicatedKeys(names, names[..i], nameIn, nameOut)
      invariant vals.values == DuplicatedValues(values0, names[..i], nameIn, nameOut)
    {
      var name := names[i];
      var newName := SubPrefix(nameIn, nameOut, name);
      DuplicatedStep(names, values0, names, i, nameIn, nameOut);
      assert name in values0;
      vals.Store(newName, vals.values[name]);
    }
    assert names[..|names|] == names;
  }

  /** Visiting one more name stores one more renamed key. */
  lemma DuplicatedStep<V>(keys: seq<string>, values: map<string, V>, names: seq<string>, i: nat,
                          nameIn: string, nameOut: string)
    requires i < |names| && forall k :: 0 <= k < |names| ==> names[k] in values
    ensures forall k :: 0 <= k < i ==> names[..i][k] in values
    ensures var m := DuplicatedValues(values, names[..i], nameIn, nameOut);
      names[i] in m &&
      DuplicatedValues(values, names[..i + 1], nameIn, nameOut) == m[SubPrefix(nameIn, nameOut, names[i]) := m[names[i]]]
    ensures DuplicatedKeys(keys, names[..i + 1], nameIn, nameOut)
         == StoredKeys(DuplicatedKeys(keys, names[..i], nameIn, nameOut), SubPrefix(nameIn, nameOut, names[i]))
  {
    assert names[..i + 1][..i] == names[..i];
    assert forall k :: 0 <= k < i ==> names[..i][k] == names[k];
  }

  /** The renamed names. */
  function Images(names: seq<string>, nameIn: string, nameOut: string): set<string> {
    set i | 0 <= i < |names| :: SubPrefix(nameIn, nameOut, names[i])
  }

  /** The keys after duplication are the original keys and the renamed ones. */
  lemma {:induction false} DuplicatedValuesKeys<V>(values: map<string, V>, names: seq<string>, nameIn: string, nameOut: string)
    requires forall i :: 0 <= i < |names| ==> names[i] in values
    ensures DuplicatedValues(values, names, nameIn, nameOut).Keys == values.Keys + Images(names, nameIn, nameOut)
    decreases |names|
  {
    if names != [] {
      var p := names[..|names| - 1];
      DuplicatedValuesKeys(values, p, nameIn, nameOut);
      ImagesStep(names, nameIn, nameOut);
    }
  }

  /** The renamed names of a non-empty list: those of all but the last, and the last one's. */
  lemma ImagesStep(names: seq<string>, nameIn: string, nameOut: string)
    requires names != []
    ensures Images(names, nameIn, nameOut)
         == Images(names[..|names| - 1], nameIn, nameOut) + {SubPrefix(nameIn, nameOut, names[|names| - 1])}
  {
    var p := names[..|names| - 1];
    forall k | k in Images(names, nameIn, nameOut)
      ensures k in Images(p, nameIn, nameOut) + {SubPrefix(nameIn, nameOut, names[|names| - 1])}
    {
      var i :| 0 <= i < |names| && k == SubPrefix(nameIn, nameOut, names[i]);
      if i < |p| { assert p[i] == names[i]; }
    }
    forall k | k in Images(p, nameIn, nameOut)
      ensures k in Images(names, nameIn, nameOut)
    {
      var i :| 0 <= i < |p| && k == SubPrefix(nameIn, nameOut, p[i]);
      assert names[i] == p[i];
    }
    assert SubPrefix(nameIn, nameOut, names[|names| - 1]) in Images(names, nameIn, nameOut);
  }

  /**
   * No renamed key lands on a different original key: renaming either
   * leaves a key as it is or produces a key the dictionary does not hold.
   */
  predicate NoClash<V>(values: map<string, V>, nameIn: string, nameOut: string) {
    forall k :: k in values && SubPrefix(nameIn, nameOut, k) != k ==> SubPrefix(nameIn, nameOut, k) !in values
  }

  /**
   * Without clashes every original key keeps its value and every renamed key
   * holds the value of the key it was renamed from.
   */
  lemma {:induction false} DuplicatedValuesKeep<V>(values: map<string, V>, names: seq<string>, nameIn: string, nameOut: string)
    requires forall i :: 0 <= i < |names| ==> names[i] in values
    requires NoClash(values, nameIn, nameOut)
    ensures forall i :: 0 <= i < |names| ==>
      SubPrefix(nameIn, nameOut, names[i]) in DuplicatedValues(values, names, nameIn, nameOut)
    ensures forall k :: k in values ==> DuplicatedValues(values, names, nameIn, nameOut)[k] == values[k]
    ensures forall i :: 0 <= i < |names| ==>
      DuplicatedValues(values, names, nameIn, nameOut)[SubPrefix(nameIn, nameOut, names[i])] == values[names[i]]
    decreases |names|
  {
    if names != [] {
      var p := names[..|names| - 1];
      var last := names[|names| - 1];
      var m := DuplicatedValues(values, p, nameIn, nameOut);
      DuplicatedValuesKeep(values, p, nameIn, nameOut);
      DuplicatedValuesKeys(values, p, nameIn, nameOut);
      var target := SubPrefix(nameIn, nameOut, last);
      assert m[last] == values[last];
      forall i | 0 <= i < |names|
        ensures DuplicatedValues(values, names, nameIn, nameOut)[SubPrefix(nameIn, nameOut, names[i])] == values[names[i]]
      {
        var k := names[i];
        if i < |p| {
          assert p[i] == k;
          if SubPrefix(nameIn, nameOut, k) == target {
            SameTarget(values, nameIn, nameOut, k, last);
          }
        }
      }
    }
  }

  /** Without clashes two keys renamed to the same key are the same key. */
  lemma SameTarget<V>(values: map<string, V>, nameIn: string, nameOut: string, a: string, b: string)
    requires a in values && b in values && NoClash(values, nameIn, nameOut)
    requires SubPrefix(nameIn, nameOut, a) == SubPrefix(nameIn, nameOut, b)
    ensures a == b
  {
    if StartsWith(a, nameIn) && StartsWith(b, nameIn) {
      SubPrefixInjective(nameIn, nameOut, a, b);
    }
  }

  /**
   * With a clash an original value is lost: renaming `xa` to `a` in
   * `{"a": 1, "xa": 2}` overwrites the value of `a`.
   */
  lemma ClashOverwrites()
    ensures DuplicatedValues(map["a" := 1, "xa" := 2], ["a", "xa"], "x", "")["a"] == 2
  {
    var values := map["a" := 1, "xa" := 2];
    assert "a"[..|"x"|] == "a";
    assert SubPrefix("x", "", "xa") == "a";
    var m1 := DuplicatedValues(values, ["a"], "x", "");
    assert ["a", "xa"][..1] == ["a"];
    assert ([] + ["a"]) == ["a"];
    assert ["a"][..0] == [];
    assert m1 == values;
  }

  /** The key order after duplication: the original keys first, in their order. */
  lemma {:induction false} DuplicatedKeysPrefix(keys: seq<string>, names: seq<string>, nameIn: string, nameOut: string)
    ensures |DuplicatedKeys(keys, names, nameIn, nameOut)| >= |keys|
    ensures DuplicatedKeys(keys, names, nameIn, nameOut)[..|keys|] == keys
    decreases |names|
  {
    if names != [] {
      var p := names[..|names| - 1];
      DuplicatedKeysPrefix(keys, p, nameIn, nameOut);
      var ks := DuplicatedKeys(keys, p, nameIn, nameOut);
      var k := SubPrefix(nameIn, nameOut, names[|names| - 1]);
      if k !in ks {
        assert (ks + [k])[..|keys|] == ks[..|keys|];
      }
    }
  }
}
