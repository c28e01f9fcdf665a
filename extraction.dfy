/** The extraction stage of lib.js: the class and property filters, the
    grouping of the remaining definitions by type (lib.js:119-172), and the
    lookup of an RO-Crate's root dataset through its metadata descriptor
    (lib.js:100-112). */
module Extraction {
  import opened Wrappers
  import opened Text
  import opened Identifiers
  import opened Entities
  import opened Seqs

  /** `extractClasses`: the `rdfs:Class` entities, in graph order. */
  method ExtractClasses(crate: Crate) returns (classes: seq<Node>)
    ensures classes == Filter(IsClass, crate.graph)
  {
    var Crate(_, g) := crate;
    classes := [];
    for i := 0 to |g|
      invariant classes == Filter(IsClass, g[..i])
    {
      var entity := g[i];
      FilterSnoc(IsClass, g, i);
      if IsClass(entity) {
        classes := classes + [entity];
      }
    }
    assert g[..|g|] == g;
  }

  /** `extractProperties`: the `rdf:Property` entities, in graph order. */
  method ExtractProperties(crate: Crate) returns (properties: seq<Node>)
    ensures properties == Filter(IsProperty, crate.graph)
  {
    var Crate(_, g) := crate;
    properties := [];
    for i := 0 to |g|
      invariant properties == Filter(IsProperty, g[..i])
    {
      var entity := g[i];
      FilterSnoc(IsProperty, g, i);
      if IsProperty(entity) {
        properties := properties + [entity];
      }
    }
    assert g[..|g|] == g;
  }

  /** The group an entity joins in `extractOtherDefinitions`: the key
      `stripPrefix(@type)` for a single type other than class and property
      (the key "undefined" when the type has no colon); none for classes,
      properties and entities with a list of types. */
  function GroupOf(n: Node): (r: Option<string>)
    ensures r.Some? <==> n.ty.TypeName? && !IsClass(n) && !IsProperty(n)
  {
    if n.ty.TypeName? && !IsClass(n) && !IsProperty(n) then Some(JsKey(StripPrefix(n.ty.name)))
    else None
  }

  function InGroup(k: string): Node -> bool
  {
    (n: Node) => GroupOf(n) == Some(k)
  }

  lemma FilterNone<T(!new)>(p: T -> bool, s: seq<T>)
    requires forall x :: x in s ==> !p(x)
    ensures Filter(p, s) == []
  {
  }

  /** The groups of `extractOtherDefinitions`, accumulated entity by entity. */
  function Groups(g: seq<Node>): map<string, seq<Node>>
  {
    if g == [] then map[]
    else
      var m := Groups(g[..|g| - 1]);
      var e := g[|g| - 1];
      match GroupOf(e)
      case None => m
      case Some(k) => m[k := (if k in m then m[k] else []) + [e]]
  }

  /** One step of the grouping loop. */
  lemma GroupsStep(g: seq<Node>, i: nat)
    requires i < |g|
    ensures GroupOf(g[i]).None? ==> Groups(g[..i + 1]) == Groups(g[..i])
    ensures GroupOf(g[i]).Some? ==>
      var k, m := GroupOf(g[i]).value, Groups(g[..i]);
      Groups(g[..i + 1]) == m[k := (if k in m then m[k] else []) + [g[i]]]
  {
    assert g[..i + 1][..i] == g[..i];
  }

  /** There is a group for every local type name an entity carries, and for
      no other name. */
  lemma {:induction false} GroupsKeys(g: seq<Node>)
    ensures forall k :: k in Groups(g) <==> exists n :: n in g && GroupOf(n) == Some(k)
  {
    if g != [] {
      var a, e := g[..|g| - 1], g[|g| - 1];
      assert g == a + [e];
      GroupsKeys(a);
    }
  }

  /** Each group holds, in graph order, exactly the entities whose type has
      that local name. */
  lemma {:induction false} GroupsValues(g: seq<Node>)
    ensures forall k :: k in Groups(g) ==> Groups(g)[k] == Filter(InGroup(k), g)
  {
    if g != [] {
      var a, e := g[..|g| - 1], g[|g| - 1];
      assert g == a + [e];
      GroupsKeys(a);
      GroupsValues(a);
      assert forall k :: k in Groups(a) ==> Groups(a)[k] == Filter(InGroup(k), a);
      forall k | k in Groups(g)
        ensures Groups(g)[k] == Filter(InGroup(k), g)
      {
        GroupValueStep(a, e, k);
      }
    }
  }

  lemma GroupValueStep(a: seq<Node>, e: Node, k: string)
    requires forall k :: k in Groups(a) <==> exists n :: n in a && GroupOf(n) == Some(k)
    requires k in Groups(a) ==> Groups(a)[k] == Filter(InGroup(k), a)
    requires k in Groups(a + [e])
    ensures Groups(a + [e])[k] == Filter(InGroup(k), a + [e])
  {
    assert (a + [e])[..|a|] == a;
    FilterAppend(InGroup(k), a, [e]);
    if k !in Groups(a) {
      FilterNone(InGroup(k), a);
    }
  }

  /** `extractOtherDefinitions`: every entity with a single type other than
      class and property, grouped under the local name of that type. An
      entity without `@type` makes `stripPrefix` throw. */
  method ExtractOtherDefinitions(crate: Crate) returns (r: Result<map<string, seq<Node>>, RunError>)
    ensures r.Err? <==> exists i :: 0 <= i < |crate.graph| && crate.graph[i].ty.NoType?
    ensures r.Err? ==> r.error == MissingType
    ensures r.Ok? ==> r.value == Groups(crate.graph)
  {
    var Crate(_, g) := crate;
    var entities: map<string, seq<Node>> := map[];
    for i := 0 to |g|
      invariant forall j :: 0 <= j < i ==> !g[j].ty.NoType?
      invariant entities == Groups(g[..i])
    {
      var entity := g[i];
      GroupsStep(g, i);
      if !IsClass(entity) && !IsProperty(entity) {
        if entity.ty.TypeList? {
          continue;
        }
        if entity.ty.NoType? {
          return Err(MissingType);
        }
        var name := JsKey(StripPrefix(entity.ty.name));
        var group := if name in entities then entities[name] else [];
        entities := entities[name := group + [entity]];
      }
    }
    assert g[..|g|] == g;
    return Ok(entities);
  }

  const DescriptorId := "ro-crate-metadata.json"
  const DescriptorType := "CreativeWork"

  /** The RO-Crate metadata descriptor: id `ro-crate-metadata.json`, type
      `CreativeWork`. */
  predicate IsDescriptor(n: Node)
  {
    n.id == Some(DescriptorId) && n.ty == TypeName(DescriptorType)
  }

  function HasId(id: Option<string>): Node -> bool
  {
    (n: Node) => n.id == id
  }

  /** `getRootDataset`: the first entity whose `@id` equals the `about` of the
      first descriptor, or `undefined` when no entity has it. Throws when
      there is no descriptor or the descriptor has no `about`. */
  function GetRootDataset(crate: Crate): (r: Result<Option<Node>, RunError>)
    ensures (forall i :: 0 <= i < |crate.graph| ==> !IsDescriptor(crate.graph[i])) ==> r.Err?
    ensures r.Err? ==> r.error == NoRootDataset
    ensures r.Ok? ==> exists d :: 0 <= d < |crate.graph| && IsDescriptor(crate.graph[d])
    ensures r.Ok? && r.value.Some? ==>
      r.value.value in crate.graph && IsDescriptor(crate.graph[FirstIndex(IsDescriptor, crate.graph).value])
  {
    match FirstIndex(IsDescriptor, crate.graph)
    case None => Err(NoRootDataset)
    case Some(d) =>
      var about := crate.graph[d].about;
      if about.None? then Err(NoRootDataset)
      else match FirstIndex(HasId(about.value.id), crate.graph)
        case None => Ok(None)
        case Some(k) => Ok(Some(crate.graph[k]))
  }

  /** The root dataset is found exactly when the first descriptor has an
      `about` and some entity carries that id; it is then the first such
      entity. */
  lemma GetRootDatasetFinds(crate: Crate, d: nat)
    requires d < |crate.graph| && IsDescriptor(crate.graph[d])
    requires forall j :: 0 <= j < d ==> !IsDescriptor(crate.graph[j])
    ensures crate.graph[d].about.None? <==> GetRootDataset(crate).Err?
    ensures crate.graph[d].about.Some? ==>
      var id := crate.graph[d].about.value.id;
      && (GetRootDataset(crate) == Ok(None) <==> forall k :: 0 <= k < |crate.graph| ==> crate.graph[k].id != id)
      && (forall k ::
            (0 <= k < |crate.graph| && crate.graph[k].id == id &&
             forall l :: 0 <= l < k ==> crate.graph[l].id != id)
            ==> GetRootDataset(crate) == Ok(Some(crate.graph[k])))
  {
    assert FirstIndex(IsDescriptor, crate.graph) == Some(d);
    if crate.graph[d].about.Some? {
      var id := crate.graph[d].about.value.id;
      var fk := FirstIndex(HasId(id), crate.graph);
      forall k | 0 <= k < |crate.graph| && crate.graph[k].id == id &&
            (forall l :: 0 <= l < k ==> crate.graph[l].id != id)
        ensures fk == Some(k)
      {
        assert HasId(id)(crate.graph[k]);
      }
    }
  }
}
