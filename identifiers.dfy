/** Identifier handling: reducing an identifier to its local name
    (`stripPrefix`, lib.js:276-280) and expanding a `prefix:local` identifier
    through the document's namespace context (`expand`, lib.js:287-295). */
module Identifiers {
  import opened Wrappers
  import opened Text

  // The unanchored test `/https?:.*/`.
  predicate IsUrl(v: string)
  {
    SchemeEnd(v).Some?
  }

  // The unanchored test `/https?:.*#.*/`: a `#` somewhere after `http:` or `https:`.
  predicate IsFragmentUrl(v: string)
  {
    SchemeEnd(v).Some? && '#' in v[SchemeEnd(v).value..]
  }

  /** The local name of an identifier; `None` (JavaScript `undefined`) when
      the value has no colon at all. */
  function StripPrefix(v: string): (r: Option<string>)
    ensures r.None? <==> ':' !in v
  {
    if IsFragmentUrl(v) then Some(AfterLast(v, '#'))
    else if IsUrl(v) then Some(AfterLast(v, '/'))
    else if ':' in v then Some(SecondField(v, ':'))
    else None
  }

  /** A URL with a fragment gives the text after its last `#`. */
  lemma StripPrefixFragment(v: string)
    requires IsFragmentUrl(v)
    ensures var r := StripPrefix(v).value;
      '#' !in r && |r| < |v| && v == v[..|v| - |r| - 1] + "#" + r
  {
    var r := AfterLast(v, '#');
    var k := SchemeEnd(v).value;
    var j :| 0 <= j < |v[k..]| && v[k..][j] == '#';
    assert v[k + j] == '#';
    assert v == v[..|v| - |r| - 1] + "#" + r;
  }

  /** Any other URL gives its last `/`-segment (all of it when it has no `/`). */
  lemma StripPrefixUrl(v: string)
    requires IsUrl(v) && !IsFragmentUrl(v)
    ensures var r := StripPrefix(v).value;
      '/' !in r && (r == v || (|r| < |v| && v == v[..|v| - |r| - 1] + "/" + r))
  {
    var r := AfterLast(v, '/');
    if |r| < |v| {
      assert v == v[..|v| - |r| - 1] + "/" + r;
    }
  }

  /** Anything else with a colon gives the text between the first and the
      second colon. */
  lemma StripPrefixPrefixed(v: string)
    requires !IsUrl(v) && ':' in v
    ensures var r := StripPrefix(v).value;
      var p := BeforeFirst(v, ':');
      ':' !in r && ':' !in p && StartsWith(v, p + ":" + r) &&
      (|v| == |p| + 1 + |r| || v[|p| + 1 + |r|] == ':')
  {
    var r := SecondField(v, ':');
    var p := BeforeFirst(v, ':');
    assert v[..|p| + 1 + |r|] == p + ":" + r;
  }

  /** A fragment-free `http:` URL ending in `/local` gives `local`. */
  lemma StripPrefixHttpPath(pre: string, local: string)
    requires '#' !in pre && '#' !in local && '/' !in local
    ensures StripPrefix("http:" + pre + "/" + local) == Some(local)
  {
    var v := "http:" + pre + "/" + local;
    SchemeEndHttp(pre + "/" + local);
    assert "http:" + (pre + "/" + local) == v;
    assert v[5..] == pre + "/" + local;
    AfterLastOf("http:" + pre, '/', local);
    assert "http:" + pre + ['/'] + local == v;
  }

  /** The same for an `https:` URL. */
  lemma StripPrefixHttpsPath(pre: string, local: string)
    requires '#' !in pre && '#' !in local && '/' !in local
    ensures StripPrefix("https:" + pre + "/" + local) == Some(local)
  {
    var v := "https:" + pre + "/" + local;
    SchemeEndHttps(pre + "/" + local);
    assert "https:" + (pre + "/" + local) == v;
    assert v[6..] == pre + "/" + local;
    AfterLastOf("https:" + pre, '/', local);
    assert "https:" + pre + ['/'] + local == v;
  }

  /** `${context[prefix]}`: the base URI, or the text "undefined" for an
      unknown prefix. */
  function ContextValue(context: map<string, string>, prefix: string): string
  {
    if prefix in context then context[prefix] else "undefined"
  }

  /** Expands a `prefix:local` identifier through the namespace context. */
  function Expand(v: string, context: map<string, string>): (r: string)
    ensures ':' !in v ==> r == v
    ensures ':' in v && BeforeFirst(v, ':') in {"http", "https"} ==> r == v
  {
    if ':' in v then
      var prefix := BeforeFirst(v, ':');
      if prefix !in {"http", "https"} then ContextValue(context, prefix) + SecondField(v, ':')
      else v
    else v
  }

  /** `prefix:local` becomes the prefix's base URI followed by `local`; an
      unknown prefix gives "undefined" followed by `local`, and anything after
      a second colon is dropped. */
  lemma ExpandPrefixed(p: string, local: string, rest: string, context: map<string, string>)
    requires ':' !in p && ':' !in local && p !in {"http", "https"}
    requires rest == [] || rest[0] == ':'
    ensures Expand(p + ":" + local + rest, context) == ContextValue(context, p) + local
    ensures p in context ==> Expand(p + ":" + local + rest, context) == context[p] + local
    ensures p !in context ==> Expand(p + ":" + local + rest, context) == "undefined" + local
  {
    SecondFieldOf(p, ':', local, rest);
    BeforeFirstOf(p, ':', local + rest);
    assert p + ":" + local + rest == p + [':'] + (local + rest);
  }

  /** A prefixed name `p:local` that is not a URL gives its local part. */
  lemma StripPrefixCurie(p: string, local: string)
    requires ':' !in p && ':' !in local && !IsUrl(p + ":" + local)
    ensures StripPrefix(p + ":" + local) == Some(local)
  {
    SecondFieldOf(p, ':', local, []);
    assert p + [':'] + local + [] == p + ":" + local;
  }

  /** An `https:` URL with a fragment gives the fragment. */
  lemma StripPrefixHttpsFragment(pre: string, local: string)
    requires '#' !in local
    ensures StripPrefix("https:" + pre + "#" + local) == Some(local)
  {
    var v := "https:" + pre + "#" + local;
    SchemeEndHttps(pre + "#" + local);
    assert "https:" + (pre + "#" + local) == v;
    assert v[6..] == pre + "#" + local;
    assert v[6..][|pre|] == '#';
    AfterLastOf("https:" + pre, '#', local);
    assert "https:" + pre + ['#'] + local == v;
  }

  /** Identifiers already written as `http:`/`https:` URLs are left alone. */
  lemma ExpandKeepsUrls(x: string, context: map<string, string>)
    ensures Expand("http:" + x, context) == "http:" + x
    ensures Expand("https:" + x, context) == "https:" + x
  {
    BeforeFirstOf("http", ':', x);
    assert "http:" + x == "http" + [':'] + x;
    BeforeFirstOf("https", ':', x);
    assert "https:" + x == "https" + [':'] + x;
  }
}
