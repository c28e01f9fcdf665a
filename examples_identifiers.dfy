/** The identifier examples of the test suite (lib.spec.js:25-37 and
    lib.spec.js:111-178), restated as lemmas. */
module IdentifierExamples {
  import opened Wrappers
  import opened Text
  import opened Identifiers

  lemma StripPrefixPrefixedExample(v: string)
    requires v == "schema:Person"
    ensures StripPrefix(v) == Some("Person")
  {
    SchemeEndNeedsT(v);
    CurieSpelling(v);
    StripPrefixCurie("schema", "Person");
  }

  lemma CurieSpelling(v: string)
    requires v == "schema:Person"
    ensures v == "schema" + ":" + "Person"
  {
  }

  lemma HttpSpelling(v: string)
    requires v == "http://schema.org/Person"
    ensures v == "http:" + "//schema.org" + "/" + "Person"
  {
  }

  lemma StripPrefixHttpExample(v: string)
    requires v == "http://schema.org/Person"
    ensures StripPrefix(v) == Some("Person")
  {
    HttpSpelling(v);
    StripPrefixHttpPath("//schema.org", "Person");
  }

  lemma HttpsSpelling(v: string)
    requires v == "https://schema.org/Person"
    ensures v == "https:" + "//schema.org" + "/" + "Person"
  {
  }

  lemma StripPrefixHttpsExample(v: string)
    requires v == "https://schema.org/Person"
    ensures StripPrefix(v) == Some("Person")
  {
    HttpsSpelling(v);
    StripPrefixHttpsPath("//schema.org", "Person");
  }

  lemma StripPrefixFragmentExample(v: string)
    requires v == "https://pcdm.org/models#Person"
    ensures StripPrefix(v) == Some("Person")
  {
    FragmentSpelling(v);
    StripPrefixHttpsFragment("//pcdm.org/models", "Person");
  }

  lemma FragmentSpelling(v: string)
    requires v == "https://pcdm.org/models#Person"
    ensures v == "https:" + "//pcdm.org/models" + "#" + "Person"
  {
  }

  lemma CollectionSpelling(v: string)
    requires v == "pcdm:Collection"
    ensures v == "pcdm" + ":" + "Collection" + []
  {
  }

  /** `pcdm:Collection` expands through any context that maps `pcdm` as the
      test suite's context does; the other prefixes are not read. */
  lemma ExpandExample(context: map<string, string>, v: string)
    requires "pcdm" in context && context["pcdm"] == "https://pcdm.org/models#"
    requires v == "pcdm:Collection"
    ensures Expand(v, context) == "https://pcdm.org/models#Collection"
  {
    CollectionSpelling(v);
    ExpandPrefixed("pcdm", "Collection", [], context);
    CollectionUri(context["pcdm"]);
  }

  lemma CollectionUri(base: string)
    requires base == "https://pcdm.org/models#"
    ensures base + "Collection" == "https://pcdm.org/models#Collection"
  {
  }

  /** An unknown prefix is not rejected: it expands to the text "undefined". */
  lemma ExpandUnknownPrefixExample(context: map<string, string>, v: string)
    requires context == map["pcdm" := "https://pcdm.org/models#"]
    requires v == "ex:thing"
    ensures Expand(v, context) == "undefinedthing"
  {
    ThingSpelling(v);
    ExpandPrefixed("ex", "thing", [], context);
    UndefinedThing("undefined");
  }

  lemma ThingSpelling(v: string)
    requires v == "ex:thing"
    ensures v == "ex" + ":" + "thing" + []
  {
  }

  lemma UndefinedThing(u: string)
    requires u == "undefined"
    ensures u + "thing" == "undefinedthing"
  {
  }
}
