/** The type rewrite of `mapPropertiesToClasses` on the properties the
    profile test inspects. */
module JoinerExamples {
  import opened Wrappers
  import opened Text
  import opened Configuration
  import opened Sorting
  import opened Joiner

  /** `hasPart` gains `File`, `Dataset`, `RepositoryCollection`,
      `RepositoryObject` and `ANY`, and the rewrite sorts them in with the
      range. */
  lemma HasPartExtra(id: Option<string>, range: seq<Option<string>>)
    requires id == Some("http://schema.org/hasPart")
    ensures JsKey(id) in AddClassesToProperty
    ensures Somes(AddClassesToProperty[JsKey(id)]) ==
      [Some("File"), Some("Dataset"), Some("RepositoryCollection"), Some("RepositoryObject"), Some("ANY")]
    ensures multiset(WithExtraClasses(id, range)) ==
      multiset(range) + multiset{Some("File"), Some("Dataset"), Some("RepositoryCollection"), Some("RepositoryObject"), Some("ANY")}
  {
  }

  /** The value types the profile offers for `hasPart`. */
  const HasPartTypes: seq<Option<string>> :=
    [Some("ANY"), Some("CreativeWork"), Some("Dataset"), Some("File"), Some("RepositoryCollection"), Some("RepositoryObject")]

  lemma LeByFirst(a: string, b: string)
    requires |a| > 0 && |b| > 0 && a[0] < b[0]
    ensures OptLe(Some(a), Some(b))
  {
  }

  lemma RepositoryOrder(a: string, b: string)
    requires a == "RepositoryCollection" && b == "RepositoryObject"
    ensures OptLe(Some(a), Some(b))
  {
    StrLeCommonPrefix("Repository", "Collection", "Object");
    LeByFirst("Collection", "Object");
    assert "Repository" + "Collection" == a;
    assert "Repository" + "Object" == b;
  }

  lemma SortedSix(a: Option<string>, b: Option<string>, c: Option<string>, d: Option<string>, e: Option<string>, f: Option<string>)
    requires OptLe(a, b) && OptLe(b, c) && OptLe(c, d) && OptLe(d, e) && OptLe(e, f)
    ensures SortedBy([a, b, c, d, e, f], Id)
  {
  }

  lemma HasPartTypesSorted(s: seq<Option<string>>)
    requires s == HasPartTypes
    ensures SortedBy(s, Id)
  {
    LeByFirst("ANY", "CreativeWork");
    LeByFirst("CreativeWork", "Dataset");
    LeByFirst("Dataset", "File");
    LeByFirst("File", "RepositoryCollection");
    RepositoryOrder("RepositoryCollection", "RepositoryObject");
    SortedSix(Some("ANY"), Some("CreativeWork"), Some("Dataset"), Some("File"),
              Some("RepositoryCollection"), Some("RepositoryObject"));
  }

  /** The unsorted list: the range followed by the configured extras. */
  lemma HasPartUnsorted(id: Option<string>, range: seq<Option<string>>)
    requires id == Some("http://schema.org/hasPart") && range == [Some("CreativeWork")]
    ensures Generalise(RemapTypes(id, range)) == range
  {
    RemapTypesChanges(id, range);
    assert JsKey(id) !in Remap;
    GeneraliseWithoutThing(range);
  }

  lemma HasPartSameElements(range: seq<Option<string>>, extras: seq<Option<string>>, b: seq<Option<string>>)
    requires range == [Some("CreativeWork")]
    requires extras == [Some("File"), Some("Dataset"), Some("RepositoryCollection"), Some("RepositoryObject"), Some("ANY")]
    requires b == HasPartTypes
    ensures multiset(range + extras) == multiset(b)
  {
  }

  /** A sorted list of the six names is the expected one. */
  lemma HasPartSortedIsExpected(r: seq<Option<string>>, range: seq<Option<string>>, extras: seq<Option<string>>)
    requires range == [Some("CreativeWork")]
    requires extras == [Some("File"), Some("Dataset"), Some("RepositoryCollection"), Some("RepositoryObject"), Some("ANY")]
    requires SortedBy(r, Id) && multiset(r) == multiset(range + extras)
    ensures r == HasPartTypes
  {
    HasPartSameElements(range, extras, HasPartTypes);
    HasPartTypesSorted(HasPartTypes);
    SortedUnique(r, HasPartTypes);
  }

  /** `hasPart`, whose range is `CreativeWork`, is offered the sorted list
      `ANY, CreativeWork, Dataset, File, RepositoryCollection,
      RepositoryObject`. */
  lemma HasPartExample(id: Option<string>, range: seq<Option<string>>)
    requires id == Some("http://schema.org/hasPart") && range == [Some("CreativeWork")]
    ensures RewrittenTypes(id, range) == HasPartTypes
  {
    HasPartUnsorted(id, range);
    HasPartExtra(id, range);
    HasPartSortedIsExpected(WithExtraClasses(id, range), range, Somes(AddClassesToProperty[JsKey(id)]));
  }

  /** `temporal`: `Text` becomes `TextArea`, `DateTime` stays. */
  lemma TemporalExample(id: Option<string>, range: seq<Option<string>>)
    requires id == Some("http://schema.org/temporal") && range == [Some("Text"), Some("DateTime")]
    ensures RewrittenTypes(id, range) == [Some("TextArea"), Some("DateTime")]
  {
    TemporalRemap(id, range);
    var t := RemapTypes(id, range);
    GeneraliseWithoutThing(t);
    AddClassesToPropertyOnlyHasPart();
    assert JsKey(id) !in AddClassesToProperty;
  }

  /** `description`: both `Text` and `TextObject` become `TextArea`. */
  lemma DescriptionExample(id: Option<string>, range: seq<Option<string>>)
    requires id == Some("http://schema.org/description") && range == [Some("Text"), Some("TextObject")]
    ensures RewrittenTypes(id, range) == [Some("TextArea"), Some("TextArea")]
  {
    DescriptionRemap(id, range);
    var t := RemapTypes(id, range);
    GeneraliseWithoutThing(t);
    AddClassesToPropertyOnlyHasPart();
    assert JsKey(id) !in AddClassesToProperty;
  }

  lemma TemporalRemap(id: Option<string>, range: seq<Option<string>>)
    requires id == Some("http://schema.org/temporal") && range == [Some("Text"), Some("DateTime")]
    ensures RemapTypes(id, range) == [Some("TextArea"), Some("DateTime")]
  {
    RemapTypesChanges(id, range);
  }

  lemma DescriptionRemap(id: Option<string>, range: seq<Option<string>>)
    requires id == Some("http://schema.org/description") && range == [Some("Text"), Some("TextObject")]
    ensures RemapTypes(id, range) == [Some("TextArea"), Some("TextArea")]
  {
    RemapTypesChanges(id, range);
  }
}
