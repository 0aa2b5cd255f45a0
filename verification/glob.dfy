/**
 * `fnmatch.fnmatch` as the orchestrator uses it: `*` matches any run of
 * characters (including `/`), `?` any single character, and every other
 * character itself. Matching is case-sensitive, as on POSIX.
 */
module Glob {
  import opened Common

  predicate Match(pattern: string, name: string)
    decreases |pattern| + |name|
  {
    if pattern == [] then name == []
    else if pattern[0] == '*' then
      Match(pattern[1..], name) || (name != [] && Match(pattern, name[1..]))
    else
      name != [] && (pattern[0] == '?' || pattern[0] == name[0]) && Match(pattern[1..], name[1..])
  }

  /** The universal pattern `*` matches every name. */
  lemma {:induction false} StarMatchesAll(name: string)
    ensures Match("*", name)
    decreases |name|
  {
    assert "*"[1..] == "";
    if name != [] {
      StarMatchesAll(name[1..]);
    }
  }

  /**
   * Appending `*` turns a pattern into a right-open prefix pattern: `p + "*"`
   * matches exactly the names that have a prefix matched by `p`.
   */
  lemma {:induction false} StarSuffixIsPrefixMatch(p: string, name: string)
    ensures Match(p + "*", name) <==> exists k :: 0 <= k <= |name| && Match(p, name[..k])
    decreases |p| + |name|
  {
    var q := p + "*";
    if p == [] {
      assert q == "*";
      StarMatchesAll(name);
      assert name[..0] == [];
    } else {
      assert q[0] == p[0] && q[1..] == p[1..] + "*";
      if p[0] == '*' {
        // q matches name iff p[1..] + "*" matches name, or q matches name[1..].
        StarSuffixIsPrefixMatch(p[1..], name);
        if name != [] {
          StarSuffixIsPrefixMatch(p, name[1..]);
        }
        if Match(q, name) {
          if Match(p[1..] + "*", name) {
            var k :| 0 <= k <= |name| && Match(p[1..], name[..k]);
            assert Match(p, name[..k]);
          } else {
            var k :| 0 <= k <= |name[1..]| && Match(p, name[1..][..k]);
            assert name[..k + 1][1..] == name[1..][..k];
            assert Match(p, name[..k + 1]);
          }
        }
        if exists k :: 0 <= k <= |name| && Match(p, name[..k]) {
          var k :| 0 <= k <= |name| && Match(p, name[..k]);
          if Match(p[1..], name[..k]) {
            assert Match(p[1..] + "*", name);
          } else {
            assert name[..k] != [] && Match(p, name[..k][1..]);
            assert name[..k][1..] == name[1..][..k - 1];
            assert Match(q, name[1..]);
          }
        }
      } else {
        if name != [] {
          StarSuffixIsPrefixMatch(p[1..], name[1..]);
          if Match(q, name) {
            var k :| 0 <= k <= |name[1..]| && Match(p[1..], name[1..][..k]);
            assert name[..k + 1][0] == name[0] && name[..k + 1][1..] == name[1..][..k];
            assert Match(p, name[..k + 1]);
          }
          if exists k :: 0 <= k <= |name| && Match(p, name[..k]) {
            var k :| 0 <= k <= |name| && Match(p, name[..k]);
            assert k >= 1;
            assert name[..k][1..] == name[1..][..k - 1];
            assert Match(p[1..], name[1..][..k - 1]);
          }
        } else {
          forall k | 0 <= k <= |name| ensures !Match(p, name[..k]) {
            assert name[..k] == [];
          }
        }
      }
    }
  }

  /** A pattern character that matches only itself. */
  predicate Literal(s: string) {
    forall i :: 0 <= i < |s| ==> s[i] != '*' && s[i] != '?'
  }

  /** A literal head of a pattern matches exactly that text at the start of the name. */
  lemma {:induction false} LiteralPrefix(lit: string, rest: string, name: string)
    requires Literal(lit)
    ensures Match(lit + rest, name) <==> StartsWith(name, lit) && Match(rest, name[|lit|..])
    decreases |lit|
  {
    if lit == [] {
      assert lit + rest == rest;
    } else {
      assert (lit + rest)[0] == lit[0] && (lit + rest)[1..] == lit[1..] + rest;
      assert Literal(lit[1..]) by {
        forall i | 0 <= i < |lit[1..]| ensures lit[1..][i] != '*' && lit[1..][i] != '?' {
          assert lit[1..][i] == lit[i + 1];
        }
      }
      if name != [] {
        LiteralPrefix(lit[1..], rest, name[1..]);
        if |name| >= |lit| {
          assert name[1..][|lit| - 1..] == name[|lit|..];
        }
        assert StartsWith(name, lit) <==> name[0] == lit[0] && StartsWith(name[1..], lit[1..]) by {
          if StartsWith(name, lit) {
            assert name[1..][..|lit| - 1] == name[..|lit|][1..];
          }
          if name[0] == lit[0] && StartsWith(name[1..], lit[1..]) {
            assert name[..|lit|] == [name[0]] + name[1..][..|lit| - 1];
          }
        }
      }
    }
  }

  /** `*` followed by a literal matches exactly the names ending with that literal. */
  lemma {:induction false} StarLiteralSuffix(lit: string, name: string)
    requires Literal(lit)
    ensures Match("*" + lit, name) <==> EndsWith(name, lit)
    decreases |name|
  {
    var q := "*" + lit;
    assert q[0] == '*' && q[1..] == lit;
    LiteralPrefix(lit, "", name);
    assert lit + "" == lit;
    if name != [] {
      StarLiteralSuffix(lit, name[1..]);
      if EndsWith(name[1..], lit) {
        assert name[|name| - |lit|..] == name[1..][|name[1..]| - |lit|..];
      }
      if EndsWith(name, lit) && !Match(lit, name) {
        assert |name| > |lit|;
        assert name[1..][|name[1..]| - |lit|..] == name[|name| - |lit|..];
      }
    }
    if Match(lit, name) {
      assert name[..|lit|] == lit && name[|lit|..] == "";
      assert name == name[..|lit|];
    }
  }

  /** `lit` occurs in `name` starting at index `i`. */
  predicate OccursAt(name: string, lit: string, i: int) {
    0 <= i <= |name| - |lit| && name[i..i + |lit|] == lit
  }

  /** `*lit*` matches exactly the names that contain the literal somewhere. */
  lemma {:induction false} StarLiteralStar(lit: string, name: string)
    requires Literal(lit)
    ensures Match("*" + lit + "*", name) <==> exists i :: OccursAt(name, lit, i)
    decreases |name|
  {
    var q := "*" + lit + "*";
    assert q[0] == '*' && q[1..] == lit + "*";
    LiteralPrefix(lit, "*", name);
    if StartsWith(name, lit) {
      StarMatchesAll(name[|lit|..]);
      assert OccursAt(name, lit, 0) by { assert name[0..|lit|] == name[..|lit|]; }
    }
    if exists i :: OccursAt(name, lit, i) {
      var i :| OccursAt(name, lit, i);
      if i > 0 {
        StarLiteralStar(lit, name[1..]);
        assert OccursAt(name[1..], lit, i - 1) by { assert name[1..][i - 1..i - 1 + |lit|] == lit; }
      } else {
        StarMatchesAll(name[|lit|..]);
      }
    }
    if Match(q, name) && !Match(lit + "*", name) {
      StarLiteralStar(lit, name[1..]);
      var i :| OccursAt(name[1..], lit, i);
      assert OccursAt(name, lit, i + 1) by { assert name[i + 1..i + 1 + |lit|] == name[1..][i..i + |lit|]; }
    }
  }
}
