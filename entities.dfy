/** Graph nodes and the two per-entity passes of lib.js: normalisation and
    validation (`normaliseEntity`, `normaliseEntities`, lib.js:196-270) and
    identifier expansion (`expandIdentifiers`, lib.js:180-189).

    A node holds only the fields the pipeline reads or writes. JavaScript
    mutates the node objects in place; here a pass returns the nodes as they
    are after its writes. */
module Entities {
  import opened Wrappers
  import opened Text
  import opened Identifiers
  import Seqs

  /** The `@type` of a node: a single string, a list, or absent. */
  datatype TypeTag = TypeName(name: string) | TypeList(names: seq<string>) | NoType

  /** A `{ "@id": ... }` reference; `id` is `None` when the object has no `@id`. */
  datatype Ref = Ref(id: Option<string>)

  /** An `rdfs:label`/`rdfs:comment` value: a plain string or a
      `{ "@language", "@value" }` object. */
  datatype Literal = Plain(text: string) | Tagged(value: Option<string>)

  datatype Node = Node(
    id: Option<string>,                    // "@id"
    ty: TypeTag,                           // "@type"
    subClassOf: Option<seq<Ref>>,          // "rdfs:subClassOf" (one reference or a list)
    domainIncludes: Option<seq<Ref>>,      // "schema:domainIncludes"
    rangeIncludes: Option<seq<Ref>>,       // "schema:rangeIncludes"
    rdfsLabel: Option<Literal>,            // "rdfs:label"
    rdfsComment: Option<Literal>,          // "rdfs:comment"
    about: Option<Ref>,                    // "about" (the metadata descriptor's target)
    name: Option<string>,                  // written by normalisation
    labelText: Option<string>,             // "label" (a keyword in Dafny)
    comment: Option<string>,
    domain: Option<seq<Option<string>>>,
    range: Option<seq<Option<string>>>)

  /** A JSON-LD document: its namespace context and its graph. */
  datatype Crate = Crate(context: map<string, string>, graph: seq<Node>)

  /** The exceptions that end a run. */
  datatype RunError =
    | MissingIdentifier     // `expand` on a node without `@id`
    | MissingType           // `stripPrefix` on a node without `@type` while grouping
    | NoRootDataset         // no usable `ro-crate-metadata.json` descriptor
    | CyclicHierarchy       // `getParent` recursing forever

  const ClassType := "rdfs:Class"
  const PropertyType := "rdf:Property"
  const RootClass := "schema:Thing"

  predicate IsClass(n: Node) { n.ty == TypeName(ClassType) }
  predicate IsProperty(n: Node) { n.ty == TypeName(PropertyType) }

  /** Unwraps a `{ "@value" }` object to its value. */
  function Unwrap(l: Option<Literal>): Option<string>
  {
    match l
    case None => None
    case Some(Plain(t)) => Some(t)
    case Some(Tagged(v)) => v
  }

  /** The local name a reference contributes to `domain`/`range`: `undefined`
      when its `@id` is missing or empty. */
  function RefName(d: Ref): Option<string>
  {
    if Truthy(d.id) then StripPrefix(d.id.value) else None
  }

  function RefNames(ds: seq<Ref>): seq<Option<string>>
  {
    seq(|ds|, i requires 0 <= i < |ds| => RefName(ds[i]))
  }

  /** Why normalising an entity threw. */
  datatype NormError = NoIdentifier | NoSubClassOf | NoDomainIncludes | NoRangeIncludes

  /** The node as it is after `normaliseEntity` returned or threw, and the
      error it threw, if any. */
  datatype Normalised = Normalised(node: Node, error: Option<NormError>)

  /** The field requirements: every node needs an `@id`; a class needs a
      parent unless it is the ontology root; a property needs both a domain and
      a range. Nodes of any other type are not checked. */
  predicate WellFormed(n: Node)
  {
    && n.id.Some?
    && (IsClass(n) ==> n.subClassOf.Some? || n.id == Some(RootClass))
    && (IsProperty(n) ==> n.domainIncludes.Some? && n.rangeIncludes.Some?)
  }

  /** `normaliseEntity`: writes `name`, `label`, `comment` and, for classes and
      properties, `domain`/`range` onto the node, throwing when a required
      field is missing. Fields written before the throw stay written. */
  function NormaliseEntity(n: Node): (r: Normalised)
    ensures r.error.None? <==> WellFormed(n)
    ensures r.node == n.(name := r.node.name, labelText := r.node.labelText, comment := r.node.comment,
                         domain := r.node.domain, range := r.node.range)
    ensures n.id.None? ==> r.node == n
    ensures n.id.Some? ==>
      r.node.name == StripPrefix(n.id.value) &&
      r.node.labelText == Unwrap(n.rdfsLabel) && r.node.comment == Unwrap(n.rdfsComment)
    ensures IsClass(n) && n.id.Some? && n.subClassOf.Some? ==> r.node.domain == Some(RefNames(n.subClassOf.value))
    ensures IsProperty(n) && n.id.Some? && n.domainIncludes.Some? ==> r.node.domain == Some(RefNames(n.domainIncludes.value))
    ensures IsProperty(n) && WellFormed(n) ==> r.node.range == Some(RefNames(n.rangeIncludes.value))
    ensures r.node.domain != n.domain ==>
      n.id.Some? && ((IsClass(n) && n.subClassOf.Some?) || (IsProperty(n) && n.domainIncludes.Some?))
    ensures r.node.range != n.range ==> IsProperty(n) && WellFormed(n)
  {
    if n.id.None? then Normalised(n, Some(NoIdentifier))
    else
      var named := n.(name := StripPrefix(n.id.value), comment := Unwrap(n.rdfsComment), labelText := Unwrap(n.rdfsLabel));
      if IsClass(n) then
        if n.subClassOf.Some? then Normalised(named.(domain := Some(RefNames(n.subClassOf.value))), None)
        else if n.id != Some(RootClass) then Normalised(named, Some(NoSubClassOf))
        else Normalised(named, None)
      else if IsProperty(n) then
        if n.domainIncludes.None? then Normalised(named, Some(NoDomainIncludes))
        else
          var withDomain := named.(domain := Some(RefNames(n.domainIncludes.value)));
          if n.rangeIncludes.None? then Normalised(withDomain, Some(NoRangeIncludes))
          else Normalised(withDomain.(range := Some(RefNames(n.rangeIncludes.value))), None)
      else Normalised(named, None)
  }

  /** The nodes of a graph as they are after every one of them went through
      `normaliseEntity`, whether or not it threw. */
  function Touched(graph: seq<Node>): (r: seq<Node>)
    ensures |r| == |graph|
    ensures forall i :: 0 <= i < |graph| ==> r[i].id == graph[i].id && r[i].ty == graph[i].ty
  {
    seq(|graph|, i requires 0 <= i < |graph| => NormaliseEntity(graph[i]).node)
  }

  /** The normalised forms of exactly the well-formed nodes, in graph order. */
  function Survivors(graph: seq<Node>): (r: seq<Node>)
    ensures |r| <= |graph|
  {
    Touched(Seqs.Filter(WellFormed, graph))
  }

  /** Every entity that survives normalisation carries what the later stages
      read: a name derived from its `@id`, a parent list for every class but
      the ontology root, and a domain and range for every property. */
  lemma SurvivorsAreNormalised(graph: seq<Node>)
    ensures forall n :: n in Survivors(graph) ==>
      && n.id.Some?
      && n.name == StripPrefix(n.id.value)
      && (IsClass(n) && n.id != Some(RootClass) ==> n.domain.Some?)
      && (IsProperty(n) ==> n.domain.Some? && n.range.Some?)
  {
    var f := Seqs.Filter(WellFormed, graph);
    forall n | n in Survivors(graph)
      ensures n.id.Some? && n.name == StripPrefix(n.id.value)
      ensures IsClass(n) && n.id != Some(RootClass) ==> n.domain.Some?
      ensures IsProperty(n) ==> n.domain.Some? && n.range.Some?
    {
      var i :| 0 <= i < |f| && Survivors(graph)[i] == n;
      assert f[i] in f;
    }
  }

  lemma TouchedAppend(a: seq<Node>, b: seq<Node>)
    ensures Touched(a + b) == Touched(a) + Touched(b)
  {
  }

  /** One step of the `normaliseEntities` loop. */
  lemma NormaliseStep(g: seq<Node>, i: nat)
    requires i < |g|
    ensures Touched(g[..i + 1]) == Touched(g[..i]) + [NormaliseEntity(g[i]).node]
    ensures Survivors(g[..i + 1]) ==
      Survivors(g[..i]) + (if WellFormed(g[i]) then [NormaliseEntity(g[i]).node] else [])
  {
    assert g[..i + 1] == g[..i] + [g[i]];
    TouchedAppend(g[..i], [g[i]]);
    Seqs.FilterAppend(WellFormed, g[..i], [g[i]]);
    TouchedAppend(Seqs.Filter(WellFormed, g[..i]), Seqs.Filter(WellFormed, [g[i]]));
  }

  /** `normaliseEntities`. The catch block assigns its own `error` parameter,
      which shadows the flag tested after the loop, so the run is never
      aborted: failing entities are silently dropped. Returns the document of
      surviving entities and the graph as the in-place writes left it. */
  method NormaliseEntities(crate: Crate) returns (kept: Crate, touched: seq<Node>)
    ensures kept.context == crate.context
    ensures kept.graph == Survivors(crate.graph)
    ensures touched == Touched(crate.graph)
  {
    var Crate(context, g) := crate;
    var entities: seq<Node> := [];
    var after: seq<Node> := [];
    var i := 0;
    while i < |g|
      invariant 0 <= i <= |g|
      invariant entities == Survivors(g[..i])
      invariant after == Touched(g[..i])
    {
      var entity := g[i];
      var outcome := NormaliseEntity(entity);
      NormaliseStep(g, i);
      if outcome.error.None? {
        entities := entities + [outcome.node];
      }
      after := after + [outcome.node];
      i := i + 1;
    }
    assert g[..i] == g;
    kept := Crate(context, entities);
    touched := after;
  }

  /** `expandIdentifiers`: rewrites the `@id` of every node through the
      document's context, keeping graph length and order and the context;
      a node without `@id` makes `expand` throw. */
  method ExpandIdentifiers(crate: Crate) returns (r: Result<Crate, RunError>)
    ensures r.Err? <==> exists i :: 0 <= i < |crate.graph| && crate.graph[i].id.None?
    ensures r.Err? ==> r.error == MissingIdentifier
    ensures r.Ok? ==> r.value.context == crate.context && |r.value.graph| == |crate.graph|
    ensures r.Ok? ==> forall i :: 0 <= i < |crate.graph| ==>
      r.value.graph[i] == crate.graph[i].(id := Some(Expand(crate.graph[i].id.value, crate.context)))
  {
    var Crate(context, g) := crate;
    var entities: seq<Node> := [];
    for i := 0 to |g|
      invariant |entities| == i
      invariant forall j :: 0 <= j < i ==>
        && g[j].id.Some?
        && entities[j] == g[j].(id := Some(Expand(g[j].id.value, context)))
    {
      var entity := g[i];
      if entity.id.None? {
        return Err(MissingIdentifier);
      }
      entities := entities + [entity.(id := Some(Expand(entity.id.value, context)))];
    }
    return Ok(Crate(context, entities));
  }
}
