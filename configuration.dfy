/** The static rule tables the profile builder consumes. The property keys
    are `http://` schema.org identifiers because the base vocabulary file
    uses `http` URLs. */
module Configuration {
  import opened Text

  /** Per-property replacement of value types. */
  const Remap: map<string, map<string, string>> := map[
    "http://schema.org/description" := map["Text" := "TextArea", "TextObject" := "TextArea"],
    "http://schema.org/disambiguatingDescription" := map["Text" := "TextArea"],
    "http://schema.org/abstract" := map["Text" := "TextArea"],
    "http://schema.org/citation" := map["Text" := "TextArea"],
    "http://schema.org/comment" := map["Text" := "TextArea"],
    "http://schema.org/conditionsOfAccess" := map["Text" := "TextArea"],
    "http://schema.org/creditText" := map["Text" := "TextArea"],
    "http://schema.org/temporal" := map["Text" := "TextArea"],
    "http://schema.org/text" := map["Text" := "TextArea"],
    "http://schema.org/geo" := map["GeoCoordinates" := "Geometry", "GeoShape" := "Geometry"]
  ]

  /** Class renames applied after the profile is assembled (`mappings.classes`). */
  const Renames: map<string, string> := map[
    "MediaObject" := "File",
    "Periodical" := "Journal",
    "Object" := "RepositoryObject",
    "Collection" := "RepositoryCollection"
  ]

  /** The rename table read backwards: each new name with the class it replaces. */
  const RenameSources: map<string, string> := map[
    "File" := "MediaObject",
    "Journal" := "Periodical",
    "RepositoryObject" := "Object",
    "RepositoryCollection" := "Collection"
  ]

  /** Extra value types offered for a property. */
  const AddClassesToProperty: map<string, seq<string>> := map[
    "http://schema.org/hasPart" := ["File", "Dataset", "RepositoryCollection", "RepositoryObject", "ANY"]
  ]

  /** No class is renamed to a name that is itself renamed, no two classes get
      the same new name, and every new name is a non-empty string. */
  lemma RenamesWellFormed()
    ensures Renames.Keys !! Renames.Values
    ensures forall a, b :: a in Renames && b in Renames && a != b ==> Renames[a] != Renames[b]
    ensures forall a :: a in Renames ==> Renames[a] != ""
    ensures Renames.Keys == {"MediaObject", "Periodical", "Object", "Collection"}
    ensures Renames.Values == {"File", "Journal", "RepositoryObject", "RepositoryCollection"}
  {
  }

  /** RenameSources is exactly the inverse of Renames. */
  lemma RenameSourcesInverse()
    ensures RenameSources.Keys == Renames.Values
    ensures forall a :: a in Renames ==> RenameSources[Renames[a]] == a
    ensures forall t :: t in RenameSources ==> RenameSources[t] in Renames && Renames[RenameSources[t]] == t
  {
    RenamesWellFormed();
  }

  /** Every remap entry rewrites to `TextArea` or `Geometry`. */
  lemma RemapTargets()
    ensures forall p, t :: p in Remap && t in Remap[p] ==> Remap[p][t] in {"TextArea", "Geometry"}
    ensures Remap["http://schema.org/description"] == map["Text" := "TextArea", "TextObject" := "TextArea"]
    ensures Remap["http://schema.org/geo"] == map["GeoCoordinates" := "Geometry", "GeoShape" := "Geometry"]
  {
  }

  /** An `http://` schema.org identifier. */
  predicate HttpSchemaId(p: string)
  {
    |p| >= 18 && p[..18] == "http://schema.org/"
  }

  /** The properties the remap table covers. */
  lemma RemapKeys()
    ensures Remap.Keys == {
      "http://schema.org/description", "http://schema.org/disambiguatingDescription",
      "http://schema.org/abstract", "http://schema.org/citation", "http://schema.org/comment",
      "http://schema.org/conditionsOfAccess", "http://schema.org/creditText",
      "http://schema.org/temporal", "http://schema.org/text", "http://schema.org/geo"}
  {
  }

  /** Every key of the remap table is an `http://` schema.org identifier. */
  lemma RemapKeysAreHttp()
    ensures forall p :: p in Remap ==> HttpSchemaId(p)
  {
    RemapKeys();
    assert HttpSchemaId("http://schema.org/description");
    assert HttpSchemaId("http://schema.org/disambiguatingDescription");
    assert HttpSchemaId("http://schema.org/abstract");
    assert HttpSchemaId("http://schema.org/citation");
    assert HttpSchemaId("http://schema.org/comment");
    assert HttpSchemaId("http://schema.org/conditionsOfAccess");
    assert HttpSchemaId("http://schema.org/creditText");
    assert HttpSchemaId("http://schema.org/temporal");
    assert HttpSchemaId("http://schema.org/text");
    assert HttpSchemaId("http://schema.org/geo");
  }

  /** Only `hasPart` gets extra classes. */
  lemma AddClassesToPropertyOnlyHasPart()
    ensures AddClassesToProperty.Keys == {"http://schema.org/hasPart"}
  {
  }
}
