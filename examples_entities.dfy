/** `normaliseEntity` on the class and property definitions of the unit
    tests (lib.spec.js:39-98). */
module EntityExamples {
  import opened Wrappers
  import opened Text
  import opened Identifiers
  import opened Entities

  /** A `prefix:local` name without an `h` gives `local`. */
  lemma CurieName(v: string, p: string, local: string)
    requires v == p + ":" + local && ':' !in p && ':' !in local && 'h' !in v
    ensures StripPrefix(v) == Some(local)
  {
    SchemeEndNeedsH(v);
    StripPrefixCurie(p, local);
  }

  lemma ThingSpelling(v: string)
    requires v == "https://schema.org/Thing"
    ensures v == "https:" + "//schema.org" + "/" + "Thing"
  {
  }

  /** `https://schema.org/Thing` names `Thing`. */
  lemma ThingRef(v: string)
    requires v == "https://schema.org/Thing"
    ensures RefName(Ref(Some(v))) == Some("Thing")
  {
    ThingSpelling(v);
    StripPrefixHttpsPath("//schema.org", "Thing");
  }

  lemma FileSpelling(v: string)
    requires v == "https://schema.org/File"
    ensures v == "https:" + "//schema.org" + "/" + "File"
  {
  }

  /** `https://schema.org/File` names `File`. */
  lemma FileRef(v: string)
    requires v == "https://schema.org/File"
    ensures RefName(Ref(Some(v))) == Some("File")
  {
    FileSpelling(v);
    StripPrefixHttpsPath("//schema.org", "File");
  }

  lemma CollectionSpelling(v: string)
    requires v == "pcdm:Collection"
    ensures v == "pcdm" + ":" + "Collection" && 'h' !in v
  {
  }

  lemma FileOfSpelling(v: string)
    requires v == "pcdm:fileOf"
    ensures v == "pcdm" + ":" + "fileOf" && 'h' !in v
  {
  }

  lemma ObjectSpelling(v: string)
    requires v == "pcdm:Object"
    ensures v == "pcdm" + ":" + "Object" && 'h' !in v
  {
  }

  /** A class without `rdfs:subClassOf` that is not the ontology root fails. */
  lemma ClassWithoutParentExample(n: Node)
    requires n.id == Some("pcdm:Collection") && IsClass(n) && n.subClassOf.None?
    ensures NormaliseEntity(n).error == Some(NoSubClassOf)
  {
    assert n.id != Some(RootClass) by { assert "pcdm:Collection"[0] != RootClass[0]; }
  }

  /** With a parent `https://schema.org/Thing` it gets name, label and domain. */
  lemma ClassExample(n: Node)
    requires n.id == Some("pcdm:Collection") && IsClass(n)
    requires n.subClassOf == Some([Ref(Some("https://schema.org/Thing"))])
    requires n.rdfsLabel == Some(Plain("Collection"))
    ensures var r := NormaliseEntity(n);
      && r.error.None?
      && r.node.name == Some("Collection") && r.node.labelText == Some("Collection")
      && r.node.domain == Some([Some("Thing")])
  {
    var v := n.id.value;
    CollectionSpelling(v);
    CurieName(v, "pcdm", "Collection");
    var parent := n.subClassOf.value[0].id.value;
    ThingRef(parent);
    assert RefNames(n.subClassOf.value) == [Some("Thing")];
  }

  /** A property whose domain is not given under `schema:domainIncludes` fails. */
  lemma PropertyWithoutDomainExample(n: Node)
    requires n.id == Some("pcdm:fileOf") && IsProperty(n) && n.domainIncludes.None?
    ensures NormaliseEntity(n).error == Some(NoDomainIncludes)
  {
  }

  /** With `schema:domainIncludes` and `schema:rangeIncludes` it gets name,
      label, domain and range. */
  lemma PropertyExample(n: Node)
    requires n.id == Some("pcdm:fileOf") && IsProperty(n)
    requires n.domainIncludes == Some([Ref(Some("https://schema.org/File"))])
    requires n.rangeIncludes == Some([Ref(Some("pcdm:Object"))])
    requires n.rdfsLabel == Some(Plain("fileOf"))
    ensures var r := NormaliseEntity(n);
      && r.error.None?
      && r.node.name == Some("fileOf") && r.node.labelText == Some("fileOf")
      && r.node.domain == Some([Some("File")]) && r.node.range == Some([Some("Object")])
  {
    var v := n.id.value;
    FileOfSpelling(v);
    CurieName(v, "pcdm", "fileOf");
    FileOfRefs(n.domainIncludes.value, n.rangeIncludes.value);
  }

  lemma FileOfRefs(domain: seq<Ref>, range: seq<Ref>)
    requires domain == [Ref(Some("https://schema.org/File"))]
    requires range == [Ref(Some("pcdm:Object"))]
    ensures RefNames(domain) == [Some("File")] && RefNames(range) == [Some("Object")]
  {
    FileRef(domain[0].id.value);
    ObjectRef(range[0].id.value);
  }

  /** `pcdm:Object` names `Object`. */
  lemma ObjectRef(v: string)
    requires v == "pcdm:Object"
    ensures RefName(Ref(Some(v))) == Some("Object")
  {
    ObjectSpelling(v);
    CurieName(v, "pcdm", "Object");
  }
}
