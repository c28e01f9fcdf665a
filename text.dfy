/** String helpers for the JavaScript string operations the source relies on:
    `split(sep).pop()`, `split(sep)[0]`, `split(sep)[1]`, the unanchored
    `/https?:/` test, property lookup with an `undefined` key and the
    string order that stands for `Array.prototype.sort`. The order compares
    code points; JavaScript compares UTF-16 code units, which differs only
    between characters above U+FFFF and those in U+E000 to U+FFFF. */
module Text {
  import opened Wrappers

  /** The key JavaScript uses when an object is indexed by a value that may be
      `undefined`: `obj[undefined]` reads the property named "undefined". */
  function JsKey(o: Option<string>): string
  {
    if o.Some? then o.value else "undefined"
  }

  /** JavaScript truthiness of a string-or-undefined value. */
  predicate Truthy(o: Option<string>)
  {
    o.Some? && o.value != ""
  }

  predicate StartsWith(s: string, p: string)
  {
    |p| <= |s| && s[..|p|] == p
  }

  /** `s.split(sep).pop()`: the text after the last `sep`, or all of `s`. */
  function AfterLast(s: string, sep: char): (r: string)
    ensures sep !in r
    ensures |r| <= |s| && r == s[|s| - |r|..]
    ensures |r| < |s| ==> s[|s| - |r| - 1] == sep
  {
    if s == [] then []
    else if s[|s| - 1] == sep then []
    else AfterLast(s[..|s| - 1], sep) + [s[|s| - 1]]
  }

  /** Splitting at a `sep` with no `sep` after it gives the text behind it. */
  lemma {:induction false} AfterLastOf(p: string, sep: char, x: string)
    requires sep !in x
    ensures AfterLast(p + [sep] + x, sep) == x
  {
    if x != [] {
      var s := p + [sep] + x;
      assert s[..|s| - 1] == p + [sep] + x[..|x| - 1];
      AfterLastOf(p, sep, x[..|x| - 1]);
    } else {
      assert (p + [sep] + x)[|p|] == sep;
    }
  }

  /** `s.split(sep)[0]`: the text before the first `sep`, or all of `s`. */
  function BeforeFirst(s: string, sep: char): (r: string)
    ensures sep !in r
    ensures |r| <= |s| && r == s[..|r|]
    ensures |r| < |s| ==> s[|r|] == sep
  {
    if s == [] || s[0] == sep then [] else [s[0]] + BeforeFirst(s[1..], sep)
  }

  lemma {:induction false} BeforeFirstOf(p: string, sep: char, x: string)
    requires sep !in p
    ensures BeforeFirst(p + [sep] + x, sep) == p
  {
    if p != [] {
      assert (p + [sep] + x)[1..] == p[1..] + [sep] + x;
      BeforeFirstOf(p[1..], sep, x);
    }
  }

  /** `s.split(sep)[1]` for an `s` that contains `sep`: the text between the
      first and the second `sep`. */
  function SecondField(s: string, sep: char): (r: string)
    requires sep in s
    ensures sep !in r
    ensures var p := BeforeFirst(s, sep);
      |p| + 1 + |r| <= |s| && s == p + [sep] + s[|p| + 1..] && r == s[|p| + 1..][..|r|]
    ensures var p := BeforeFirst(s, sep);
      |p| + 1 + |r| < |s| ==> s[|p| + 1 + |r|] == sep
  {
    var p := BeforeFirst(s, sep);
    BeforeFirst(s[|p| + 1..], sep)
  }

  lemma SecondFieldOf(p: string, sep: char, x: string, rest: string)
    requires sep !in p && sep !in x
    ensures sep in p + [sep] + x + rest
    ensures rest == [] || rest[0] == sep ==> SecondField(p + [sep] + x + rest, sep) == x
  {
    var s := p + [sep] + x + rest;
    assert s[|p|] == sep;
    BeforeFirstOf(p, sep, x + rest);
    assert s == p + [sep] + (x + rest);
    if rest == [] || rest[0] == sep {
      assert s[|p| + 1..] == x + rest;
      if rest == [] {
        assert x + rest == x;
        BeforeFirstAll(x, sep);
      } else {
        BeforeFirstOf(x, sep, rest[1..]);
        assert x + rest == x + [sep] + rest[1..];
      }
    }
  }

  lemma BeforeFirstAll(s: string, sep: char)
    requires sep !in s
    ensures BeforeFirst(s, sep) == s
  {
  }

  /** The index just past the leftmost match of `/https?:/`, if any. */
  function SchemeEnd(s: string): (r: Option<nat>)
    ensures r.Some? ==> 5 <= r.value <= |s| && s[r.value - 1] == ':'
  {
    if |s| == 0 then None
    else if StartsWith(s, "http:") then Some(5)
    else if StartsWith(s, "https:") then Some(6)
    else match SchemeEnd(s[1..])
      case None => None
      case Some(k) => Some(k + 1)
  }

  lemma SchemeEndHttp(x: string)
    ensures SchemeEnd("http:" + x) == Some(5)
  {
    assert ("http:" + x)[..5] == "http:";
  }

  lemma SchemeEndHttps(x: string)
    ensures SchemeEnd("https:" + x) == Some(6)
  {
    var s := "https:" + x;
    assert s[4] == 's';
    assert s[..5] != "http:" by { assert s[..5][4] != "http:"[4]; }
    assert s[..6] == "https:";
  }

  /** Without a `t` there is no `http:` or `https:` to match. */
  lemma {:induction false} SchemeEndNeedsT(s: string)
    requires 't' !in s
    ensures SchemeEnd(s).None?
  {
    if |s| > 0 {
      if |s| >= 5 { assert s[..5][1] == s[1]; }
      if |s| >= 6 { assert s[..6][1] == s[1]; }
      SchemeEndNeedsT(s[1..]);
    }
  }

  /** Without an `h` there is no `http:` or `https:` to match either. */
  lemma {:induction false} SchemeEndNeedsH(s: string)
    requires 'h' !in s
    ensures SchemeEnd(s).None?
  {
    if |s| > 0 {
      if |s| >= 5 { assert s[..5][0] == s[0]; }
      if |s| >= 6 { assert s[..6][0] == s[0]; }
      SchemeEndNeedsH(s[1..]);
    }
  }

  // ---------------------------------------------------------------------
  // Order: code-point order of strings, `undefined` after every string, for
  // `Array.prototype.sort` without a comparator and lodash `orderBy` (which
  // compare UTF-16 code units instead of code points).

  /** Lexicographic order on strings by character code. */
  predicate StrLe(a: string, b: string)
  {
    |a| == 0 || (|b| > 0 && (a[0] < b[0] || (a[0] == b[0] && StrLe(a[1..], b[1..]))))
  }

  lemma StrLeTotal(a: string, b: string)
    ensures StrLe(a, b) || StrLe(b, a)
  {
  }

  lemma StrLeAntisymmetric(a: string, b: string)
    requires StrLe(a, b) && StrLe(b, a)
    ensures a == b
  {
    if |a| > 0 && |b| > 0 {
      StrLeAntisymmetric(a[1..], b[1..]);
      assert a == [a[0]] + a[1..] && b == [b[0]] + b[1..];
    }
  }

  lemma StrLeTransitive(a: string, b: string, c: string)
    requires StrLe(a, b) && StrLe(b, c)
    ensures StrLe(a, c)
  {
    if |a| > 0 && |b| > 0 && |c| > 0 && a[0] == b[0] == c[0] {
      StrLeTransitive(a[1..], b[1..], c[1..]);
    }
  }

  /** A shared prefix does not change the order. */
  lemma {:induction false} StrLeCommonPrefix(p: string, a: string, b: string)
    ensures StrLe(p + a, p + b) == StrLe(a, b)
  {
    if p != [] {
      assert (p + a)[1..] == p[1..] + a;
      assert (p + b)[1..] == p[1..] + b;
      StrLeCommonPrefix(p[1..], a, b);
    } else {
      assert p + a == a && p + b == b;
    }
  }

  /** The order on string-or-undefined values: strings by `StrLe`, `undefined` last. */
  predicate OptLe(a: Option<string>, b: Option<string>)
  {
    b.None? || (a.Some? && StrLe(a.value, b.value))
  }

  lemma OptLeTotal(a: Option<string>, b: Option<string>)
    ensures OptLe(a, b) || OptLe(b, a)
  {
    if a.Some? && b.Some? { StrLeTotal(a.value, b.value); }
  }

  lemma OptLeAntisymmetric(a: Option<string>, b: Option<string>)
    requires OptLe(a, b) && OptLe(b, a)
    ensures a == b
  {
    if a.Some? && b.Some? { StrLeAntisymmetric(a.value, b.value); }
  }

  lemma OptLeTransitive(a: Option<string>, b: Option<string>, c: Option<string>)
    requires OptLe(a, b) && OptLe(b, c)
    ensures OptLe(a, c)
  {
    if a.Some? && b.Some? && c.Some? { StrLeTransitive(a.value, b.value, c.value); }
  }

  lemma OptLeReflexive(a: Option<string>)
    ensures OptLe(a, a)
  {
    if a.Some? { StrLeTotal(a.value, a.value); }
  }
}
