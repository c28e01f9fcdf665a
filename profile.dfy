/** `createDescriboMainProfile` (lib.js:14-76): the schema.org vocabulary
    and the extension crates are normalised, expanded and split into classes,
    properties and enumerations; the classes become the definition table,
    which gets its hierarchies, its inputs and its renames. The file system
    is not modelled: the vocabulary and the extension directory listing are
    parameters. */
module Profile {
  import opened Wrappers
  import opened Seqs
  import opened Identifiers
  import opened Entities
  import opened Extraction
  import opened Definitions
  import opened Hierarchy
  import opened Joiner
  import opened Configuration
  import opened Mappings
  import opened Sorting

  /** One entry of the extensions directory: its name and its crate. */
  datatype Extension = Extension(name: string, crate: Crate)

  /** What one crate contributes: its classes and its properties. */
  datatype Parts = Parts(classes: seq<Node>, properties: seq<Node>)

  /** The directory entry the loop skips. */
  const SkippedEntry := ".DS_Store"

  /** The key a class without a label is filed under, removed at the end. */
  const UndefinedKey := "undefined"

  predicate HasIds(g: seq<Node>)
  {
    forall i :: 0 <= i < |g| ==> g[i].id.Some?
  }

  /** The crate `expandIdentifiers` returns when every node has an `@id`. */
  function Expanded(crate: Crate): (r: Crate)
    requires HasIds(crate.graph)
    ensures r.context == crate.context && |r.graph| == |crate.graph|
    ensures forall i :: 0 <= i < |crate.graph| ==>
      r.graph[i] == crate.graph[i].(id := Some(Expand(crate.graph[i].id.value, crate.context)))
  {
    Crate(crate.context, seq(|crate.graph|, i requires 0 <= i < |crate.graph| =>
      crate.graph[i].(id := Some(Expand(crate.graph[i].id.value, crate.context)))))
  }

  /** What the loop body takes from one extension: nothing for the skipped
      entry; otherwise an error when the crate has no root dataset, else the
      classes and properties of the normalised, expanded crate. */
  function ExtensionParts(e: Extension): (r: Result<Parts, RunError>)
    ensures r.Err? <==> e.name != SkippedEntry && GetRootDataset(e.crate).Err?
    ensures r.Err? ==> r.error == NoRootDataset
    ensures e.name == SkippedEntry ==> r == Ok(Parts([], []))
    ensures r.Ok? ==> (forall n :: n in r.value.classes ==> IsClass(n)) && (forall n :: n in r.value.properties ==> IsProperty(n))
  {
    if e.name == SkippedEntry then Ok(Parts([], []))
    else match GetRootDataset(e.crate)
      case Err(err) => Err(err)
      case Ok(_) =>
        var kept := Crate(e.crate.context, Survivors(e.crate.graph));
        SurvivorsAreNormalised(e.crate.graph);
        assert HasIds(kept.graph) by {
          forall i | 0 <= i < |kept.graph| ensures kept.graph[i].id.Some? {
            assert kept.graph[i] in Survivors(e.crate.graph);
          }
        }
        var x := Expanded(kept);
        Ok(Parts(Filter(IsClass, x.graph), Filter(IsProperty, x.graph)))
  }

  /** The extension loop: the parts of every extension, concatenated in
      directory order, or the first extension's error. */
  function AllExtensions(exts: seq<Extension>): (r: Result<Parts, RunError>)
    ensures r.Err? ==> r.error == NoRootDataset
  {
    if exts == [] then Ok(Parts([], []))
    else match AllExtensions(exts[..|exts| - 1])
      case Err(err) => Err(err)
      case Ok(before) =>
        match ExtensionParts(exts[|exts| - 1])
        case Err(err) => Err(err)
        case Ok(p) => Ok(Parts(before.classes + p.classes, before.properties + p.properties))
  }

  /** Any extension without a root dataset ends the loop with its error. */
  lemma {:induction false} AllExtensionsFail(exts: seq<Extension>, i: nat)
    requires i < |exts| && ExtensionParts(exts[i]).Err?
    ensures AllExtensions(exts).Err?
  {
    if i < |exts| - 1 {
      AllExtensionsFail(exts[..|exts| - 1], i);
    }
  }

  /** The loop fails exactly when some extension that is not skipped has no
      root dataset. */
  lemma {:induction false} AllExtensionsErr(exts: seq<Extension>)
    ensures AllExtensions(exts).Err? <==>
      exists i :: 0 <= i < |exts| && exts[i].name != SkippedEntry && GetRootDataset(exts[i].crate).Err?
  {
    if exists i :: 0 <= i < |exts| && exts[i].name != SkippedEntry && GetRootDataset(exts[i].crate).Err? {
      var i :| 0 <= i < |exts| && exts[i].name != SkippedEntry && GetRootDataset(exts[i].crate).Err?;
      AllExtensionsFail(exts, i);
    } else if exts != [] {
      var init := exts[..|exts| - 1];
      AllExtensionsErr(init);
      assert forall i :: 0 <= i < |init| ==> init[i] == exts[i];
      assert ExtensionParts(exts[|exts| - 1]).Ok?;
    }
  }

  /** The table with every class given its hierarchy. */
  function Hierarchies(defs: Definitions): (r: Definitions)
    requires forall k :: k in defs ==> ClassHierarchy(defs, k).Ok?
    ensures r.Keys == defs.Keys
  {
    map k | k in defs :: WithHierarchy(defs, k)
  }

  /** The table with the properties joined in and every input list ordered. */
  function Joined(defs: Definitions, properties: seq<Node>, enumerations: map<string, seq<Node>>): (r: Definitions)
    ensures r.Keys == defs.Keys
  {
    map k | k in defs :: SortInputs(JoinAll(defs, properties, enumerations)[k])
  }

  /** What the run takes from the vocabulary: its classes, properties and
      enumerations. The schema is expanded as it stands after normalisation,
      failing entities included. */
  function SchemaParts(schema: Crate): (r: Result<(Parts, map<string, seq<Node>>), RunError>)
    ensures r.Ok? ==> (forall c :: c in r.value.0.classes ==> IsClass(c)) && forall p :: p in r.value.0.properties ==> IsProperty(p)
    ensures r.Err? ==> r.error == MissingIdentifier || r.error == MissingType
    ensures r.Err? <==> exists i :: 0 <= i < |schema.graph| && (schema.graph[i].id.None? || schema.graph[i].ty.NoType?)
  {
    var base := Crate(schema.context, Touched(schema.graph));
    if !HasIds(base.graph) then Err(MissingIdentifier)
    else
      var x := Expanded(base);
      if exists i :: 0 <= i < |x.graph| && x.graph[i].ty.NoType? then Err(MissingType)
      else Ok((Parts(Filter(IsClass, x.graph), Filter(IsProperty, x.graph)), Groups(x.graph)))
  }

  /** The stages after loading: the table, the hierarchies, the inputs, the
      renames and the removal of the `undefined` entry. */
  function Assemble(parts: Parts, enumerations: map<string, seq<Node>>): (r: Result<Definitions, RunError>)
    ensures r.Ok? ==> UndefinedKey !in r.value
  {
    var defs := Table(parts.classes);
    if exists k :: k in defs && ClassHierarchy(defs, k).Err? then Err(CyclicHierarchy)
    else Ok(Mapped(Joined(Hierarchies(defs), parts.properties, enumerations)) - {UndefinedKey})
  }

  /** The profile the run returns, or the error that ends it. */
  function Build(schema: Crate, exts: seq<Extension>): (r: Result<Definitions, RunError>)
    ensures r.Ok? ==> UndefinedKey !in r.value
  {
    match SchemaParts(schema)
    case Err(err) => Err(err)
    case Ok((base, enumerations)) =>
      match AllExtensions(exts)
      case Err(err) => Err(err)
      case Ok(more) =>
        Assemble(Parts(base.classes + more.classes, base.properties + more.properties), enumerations)
  }

  /** A run that gets past the hierarchies has one entry per class label and
      one per new name of a renamed class, without `undefined`. */
  lemma AssembleKeys(parts: Parts, enumerations: map<string, seq<Node>>)
    requires Assemble(parts, enumerations).Ok?
    ensures
      var defs := Table(parts.classes);
      Assemble(parts, enumerations).value.Keys ==
        (defs.Keys + set s | s in defs && s in Renames :: Renames[s]) - {UndefinedKey}
  {
    var defs := Table(parts.classes);
    MappedKeys(Joined(Hierarchies(defs), parts.properties, enumerations));
  }

  /** A class that is not a rename target keeps every field the table gave
      it (id, name, help, parents), carries its hierarchy, and differs
      otherwise only in its inputs. */
  lemma AssembleKeepsClass(parts: Parts, enumerations: map<string, seq<Node>>, k: string)
    requires Assemble(parts, enumerations).Ok?
    requires k in Table(parts.classes) && k != UndefinedKey && k !in RenameSources
    ensures
      var r := Assemble(parts, enumerations).value;
      var d := Table(parts.classes)[k];
      && k in r
      && r[k] == d.(hierarchy := ClassHierarchy(Table(parts.classes), k).value, inputs := r[k].inputs)
  {
    var defs := Table(parts.classes);
    var joined := Joined(Hierarchies(defs), parts.properties, enumerations);
    JoinedKeepsClass(defs, parts.properties, enumerations, k);
    MappedKeepsFields(joined, k);
  }

  /** Setting the hierarchies and joining the properties change only a
      class's hierarchy and inputs. */
  lemma JoinedKeepsClass(defs: Definitions, properties: seq<Node>, enumerations: map<string, seq<Node>>, k: string)
    requires forall c :: c in defs ==> ClassHierarchy(defs, c).Ok?
    requires k in defs
    ensures
      var j := Joined(Hierarchies(defs), properties, enumerations);
      && k in j
      && j[k] == defs[k].(hierarchy := ClassHierarchy(defs, k).value, inputs := j[k].inputs)
  {
    var h := Hierarchies(defs);
    JoinAllKeeps(h, properties, enumerations);
    assert h[k] == WithHierarchy(defs, k);
  }

  /** A class the renames do not touch has its inputs in name order: the
      inputs the properties gave it, sorted. */
  lemma AssembleSortsInputs(parts: Parts, enumerations: map<string, seq<Node>>, k: string)
    requires Assemble(parts, enumerations).Ok?
    requires k in Table(parts.classes) && k != UndefinedKey && k !in Renames && k !in RenameSources
    ensures
      var r := Assemble(parts, enumerations).value;
      var joined := JoinAll(Hierarchies(Table(parts.classes)), parts.properties, enumerations);
      && k in r && k in joined
      && SortedBy(r[k].inputs, InputName)
      && multiset(r[k].inputs) == multiset(joined[k].inputs)
  {
    var defs := Table(parts.classes);
    var joined := Joined(Hierarchies(defs), parts.properties, enumerations);
    MappedUntouched(joined, k);
  }

  /** A vocabulary class keeps its place against any extension class with
      the same label. */
  lemma BuildBaseClassesWin(schema: Crate, exts: seq<Extension>, k: string)
    requires Build(schema, exts).Ok?
    requires SchemaParts(schema).Ok? && k in Table(SchemaParts(schema).value.0.classes)
    requires k != UndefinedKey && k !in RenameSources
    ensures
      var r := Build(schema, exts).value;
      var d := Table(SchemaParts(schema).value.0.classes)[k];
      && k in r && r[k].id == d.id && r[k].name == d.name && r[k].help == d.help
  {
    var base := SchemaParts(schema).value.0;
    var more := AllExtensions(exts).value;
    var parts := Parts(base.classes + more.classes, base.properties + more.properties);
    TableExtends(base.classes, more.classes);
    AssembleKeepsClass(parts, SchemaParts(schema).value.1, k);
  }

  /** An extension without a root dataset ends the run; when the vocabulary
      loads, the run reports the missing root dataset. */
  lemma BuildMissingDescriptor(schema: Crate, exts: seq<Extension>, i: nat)
    requires i < |exts| && exts[i].name != SkippedEntry
    requires forall j :: 0 <= j < |exts[i].crate.graph| ==> !IsDescriptor(exts[i].crate.graph[j])
    ensures Build(schema, exts).Err?
    ensures SchemaParts(schema).Ok? ==> Build(schema, exts) == Err(NoRootDataset)
  {
    AllExtensionsFail(exts, i);
  }

  /** One more extension either ends the loop with its error or adds its
      parts after the ones before it. */
  lemma AllExtensionsStep(exts: seq<Extension>, i: nat)
    requires i < |exts| && AllExtensions(exts[..i]).Ok?
    ensures ExtensionParts(exts[i]).Ok? ==>
      var before := AllExtensions(exts[..i]).value;
      var p := ExtensionParts(exts[i]).value;
      AllExtensions(exts[..i + 1]) == Ok(Parts(before.classes + p.classes, before.properties + p.properties))
  {
    var e := exts[..i + 1];
    assert e[..|e| - 1] == exts[..i];
    assert e[|e| - 1] == exts[i];
  }

  /** The loop body for one extension: `readExtension` with its root-dataset
      test, then normalisation, expansion and extraction. */
  method ReadExtension(e: Extension) returns (r: Result<Parts, RunError>)
    ensures r == ExtensionParts(e)
  {
    if e.name == SkippedEntry {
      return Ok(Parts([], []));
    }
    var root := GetRootDataset(e.crate);
    if root.Err? {
      return Err(root.error);
    }
    var kept, _ := NormaliseEntities(e.crate);
    var crate := ExpandIdentifiers(kept);
    if crate.Err? {
      SurvivorsAreNormalised(e.crate.graph);
      assert false;
    }
    assert crate.value == Expanded(kept);
    var classes := ExtractClasses(crate.value);
    var properties := ExtractProperties(crate.value);
    return Ok(Parts(classes, properties));
  }

  /** The vocabulary stage of the run. */
  method ReadSchema(schema: Crate) returns (r: Result<(Parts, map<string, seq<Node>>), RunError>)
    ensures r == SchemaParts(schema)
  {
    var _, touched := NormaliseEntities(schema);
    var expanded := ExpandIdentifiers(Crate(schema.context, touched));
    if expanded.Err? {
      return Err(expanded.error);
    }
    var crate := expanded.value;
    assert crate == Expanded(Crate(schema.context, touched));
    var classes := ExtractClasses(crate);
    var properties := ExtractProperties(crate);
    var enumerations := ExtractOtherDefinitions(crate);
    if enumerations.Err? {
      return Err(enumerations.error);
    }
    return Ok((Parts(classes, properties), enumerations.value));
  }

  /** The extension loop of the run. */
  method ReadExtensions(extensions: seq<Extension>) returns (r: Result<Parts, RunError>)
    ensures r == AllExtensions(extensions)
  {
    var classes, properties := [], [];
    for i := 0 to |extensions|
      invariant AllExtensions(extensions[..i]) == Ok(Parts(classes, properties))
    {
      AllExtensionsStep(extensions, i);
      var parts := ReadExtension(extensions[i]);
      if parts.Err? {
        AllExtensionsFail(extensions, i);
        return Err(parts.error);
      }
      classes := classes + parts.value.classes;
      properties := properties + parts.value.properties;
    }
    assert extensions[..|extensions|] == extensions;
    return Ok(Parts(classes, properties));
  }

  lemma HierarchiesAgree(defs: Definitions, h: Definitions)
    requires forall k :: k in defs ==> ClassHierarchy(defs, k).Ok?
    requires h.Keys == defs.Keys && forall k :: k in defs ==> h[k] == WithHierarchy(defs, k)
    ensures h == Hierarchies(defs)
  {
  }

  lemma JoinedAgree(defs: Definitions, properties: seq<Node>, enumerations: map<string, seq<Node>>, j: Definitions)
    requires j.Keys == defs.Keys
    requires forall k :: k in j ==> j[k] == SortInputs(JoinAll(defs, properties, enumerations)[k])
    ensures j == Joined(defs, properties, enumerations)
  {
  }

  /** The stages of the run after loading. */
  method AssembleDefinitions(parts: Parts, enumerations: map<string, seq<Node>>)
    returns (r: Result<Definitions, RunError>)
    ensures r == Assemble(parts, enumerations)
  {
    var definitions := BuildDefinitions(parts.classes);
    var withHierarchies := MapClassHierarchies(definitions);
    if withHierarchies.Err? {
      return Err(withHierarchies.error);
    }
    HierarchiesAgree(definitions, withHierarchies.value);
    var joined := MapPropertiesToClasses(withHierarchies.value, parts.properties, enumerations);
    JoinedAgree(withHierarchies.value, parts.properties, enumerations, joined);
    var mapped := ApplyMappings(joined);
    return Ok(mapped - {UndefinedKey});
  }

  /** `createDescriboMainProfile` on a loaded vocabulary and extension list. */
  method CreateDescriboMainProfile(schema: Crate, extensions: seq<Extension>)
    returns (r: Result<Definitions, RunError>)
    ensures r == Build(schema, extensions)
  {
    var schemaParts := ReadSchema(schema);
    if schemaParts.Err? {
      return Err(schemaParts.error);
    }
    var (base, enumerations) := schemaParts.value;
    var more := ReadExtensions(extensions);
    if more.Err? {
      return Err(more.error);
    }
    r := AssembleDefinitions(
      Parts(base.classes + more.value.classes, base.properties + more.value.properties), enumerations);
  }
}
