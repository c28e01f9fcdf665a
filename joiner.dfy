/** `mapPropertiesToClasses` (lib.js:329-397): every property becomes an
    input of each class its domain names. The input's type list is the
    property's range passed through the configured rewrites; afterwards
    each class's inputs are ordered by name. */
module Joiner {
  import opened Wrappers
  import opened Text
  import opened Entities
  import opened Definitions
  import opened Configuration
  import opened Sorting
  import opened Seqs

  const Thing := "Thing"
  const Any := "ANY"
  const SelectUrl := "SelectURL"
  const NameProperty := "https://schema.org/name"

  /** Step 1: the per-property remap; a type the table does not list keeps
      its name. */
  function RemapType(id: Option<string>, t: Option<string>): Option<string>
  {
    var table := JsKey(id);
    if table in Remap && JsKey(t) in Remap[table] then Some(Remap[table][JsKey(t)]) else t
  }

  function RemapTypes(id: Option<string>, ts: seq<Option<string>>): (r: seq<Option<string>>)
    ensures |r| == |ts|
  {
    seq(|ts|, i requires 0 <= i < |ts| => RemapType(id, ts[i]))
  }

  /** The remap keeps the length and position of every type: a type the
      property's table lists becomes the table's entry, any other type stays,
      and a change is only ever into `TextArea` or `Geometry`. */
  lemma RemapTypesChanges(id: Option<string>, ts: seq<Option<string>>)
    ensures |RemapTypes(id, ts)| == |ts|
    ensures forall i :: 0 <= i < |ts| && JsKey(id) in Remap && JsKey(ts[i]) in Remap[JsKey(id)] ==>
      RemapTypes(id, ts)[i] == Some(Remap[JsKey(id)][JsKey(ts[i])])
    ensures forall i :: 0 <= i < |ts| && JsKey(id) in Remap && JsKey(ts[i]) !in Remap[JsKey(id)] ==>
      RemapTypes(id, ts)[i] == ts[i]
    ensures forall i :: 0 <= i < |ts| && RemapTypes(id, ts)[i] != ts[i] ==>
      RemapTypes(id, ts)[i] in {Some("TextArea"), Some("Geometry")}
    ensures JsKey(id) !in Remap ==> RemapTypes(id, ts) == ts
  {
    RemapTargets();
  }

  /** Step 2: every `Thing` is followed by `ANY`. */
  function Generalise(ts: seq<Option<string>>): (r: seq<Option<string>>)
    ensures |r| == |ts| + Count(ts, Some(Thing))
    ensures forall x :: x in r <==> x in ts || (x == Some(Any) && Some(Thing) in ts)
  {
    if ts == [] then []
    else (if ts[0] == Some(Thing) then [Some(Thing), Some(Any)] else [ts[0]]) + Generalise(ts[1..])
  }

  /** Each `Thing` in the result is immediately followed by `ANY`. */
  lemma {:induction false} ThingFollowedByAny(ts: seq<Option<string>>)
    ensures forall i :: 0 <= i < |Generalise(ts)| && Generalise(ts)[i] == Some(Thing) ==>
      i + 1 < |Generalise(ts)| && Generalise(ts)[i + 1] == Some(Any)
  {
    if ts != [] {
      var head := if ts[0] == Some(Thing) then [Some(Thing), Some(Any)] else [ts[0]];
      var g := Generalise(ts);
      var tail := Generalise(ts[1..]);
      assert g == head + tail;
      ThingFollowedByAny(ts[1..]);
      forall i | 0 <= i < |g| && g[i] == Some(Thing)
        ensures i + 1 < |g| && g[i + 1] == Some(Any)
      {
        if i >= |head| {
          assert tail[i - |head|] == Some(Thing);
        }
      }
    }
  }

  /** The widening works entry by entry: the other types keep their order. */
  lemma {:induction false} GeneraliseAppend(a: seq<Option<string>>, b: seq<Option<string>>)
    ensures Generalise(a + b) == Generalise(a) + Generalise(b)
  {
    if a == [] {
      assert a + b == b;
    } else {
      assert (a + b)[0] == a[0];
      assert (a + b)[1..] == a[1..] + b;
      GeneraliseAppend(a[1..], b);
    }
  }

  /** Without `Thing` the list is unchanged. */
  lemma {:induction false} GeneraliseWithoutThing(ts: seq<Option<string>>)
    requires Some(Thing) !in ts
    ensures Generalise(ts) == ts
  {
    if ts != [] {
      assert ts[0] != Some(Thing);
      GeneraliseWithoutThing(ts[1..]);
    }
  }

  function Somes(ns: seq<string>): (r: seq<Option<string>>)
    ensures |r| == |ns| && forall i :: 0 <= i < |ns| ==> r[i] == Some(ns[i])
  {
    seq(|ns|, i requires 0 <= i < |ns| => Some(ns[i]))
  }

  /** Step 3: the configured extra classes are appended and the whole list
      sorted; for other properties the list is left as it is. */
  function WithExtraClasses(id: Option<string>, ts: seq<Option<string>>): (r: seq<Option<string>>)
    ensures JsKey(id) in AddClassesToProperty ==>
      SortedBy(r, Id) && multiset(r) == multiset(ts + Somes(AddClassesToProperty[JsKey(id)]))
    ensures JsKey(id) !in AddClassesToProperty ==> r == ts
  {
    if JsKey(id) in AddClassesToProperty then SortBy(ts + Somes(AddClassesToProperty[JsKey(id)]), Id)
    else ts
  }

  /** The member `@id`s of an enumeration. */
  function MemberIds(members: seq<Node>): seq<Option<string>>
  {
    seq(|members|, i requires 0 <= i < |members| => members[i].id)
  }

  /** Step 4: the values of the last type that names an enumeration. */
  function EnumValues(ts: seq<Option<string>>, enumerations: map<string, seq<Node>>): (r: Option<seq<Option<string>>>)
    ensures r.None? <==> forall i :: 0 <= i < |ts| ==> JsKey(ts[i]) !in enumerations
    ensures r.Some? ==>
      exists i ::
        && 0 <= i < |ts| && JsKey(ts[i]) in enumerations
        && r.value == MemberIds(enumerations[JsKey(ts[i])])
        && forall j :: i < j < |ts| ==> JsKey(ts[j]) !in enumerations
  {
    if ts == [] then None
    else if JsKey(ts[|ts| - 1]) in enumerations then Some(MemberIds(enumerations[JsKey(ts[|ts| - 1])]))
    else EnumValues(ts[..|ts| - 1], enumerations)
  }

  /** The types of an input before enumerations are considered. */
  function RewrittenTypes(id: Option<string>, range: seq<Option<string>>): seq<Option<string>>
  {
    WithExtraClasses(id, Generalise(RemapTypes(id, range)))
  }

  /** The input a property contributes to each class of its domain; none
      when it has no range, because then the rewrite's `map` throws. */
  function InputFor(p: Node, enumerations: map<string, seq<Node>>): (r: Option<InputDef>)
    ensures r.None? <==> p.range.None?
    ensures r.Some? ==>
      var inp := r.value;
      && inp.id == p.id && inp.name == p.name && inp.labelText == p.labelText && inp.help == p.comment
      && !inp.required && !inp.hide && !inp.readonly
      && (inp.multiple <==> p.id != Some(NameProperty))
      && var ts := RewrittenTypes(p.id, p.range.value);
         inp.values == EnumValues(ts, enumerations)
         && inp.types == (if inp.values.Some? then ts + [Some(SelectUrl)] else ts)
  {
    if p.range.None? then None
    else
      var ts := RewrittenTypes(p.id, p.range.value);
      var values := EnumValues(ts, enumerations);
      var types := if values.Some? then ts + [Some(SelectUrl)] else ts;
      Some(InputDef(p.id, p.name, p.labelText, p.comment,
                    false, p.id != Some(NameProperty), false, false, types, values))
  }

  /** The domain entries a property's loop gets through: it stops at the
      first truthy entry that names no class in the table, where the push
      throws and the `catch` skips the rest of the property. */
  function Processed(ds: seq<Option<string>>, keys: set<string>): (r: seq<Option<string>>)
    ensures r <= ds
    ensures forall d :: d in r && Truthy(d) ==> d.value in keys
    ensures r == ds || (Truthy(ds[|r|]) && ds[|r|].value !in keys)
  {
    if ds == [] then []
    else if Truthy(ds[0]) && ds[0].value !in keys then []
    else [ds[0]] + Processed(ds[1..], keys)
  }

  /** How many inputs a class gets from the processed entries: one per truthy
      entry naming it. */
  function Hits(ds: seq<Option<string>>, k: string): nat
  {
    if k == "" then 0 else Count(ds, Some(k))
  }

  /** Pushes a property's input onto the classes of its domain, in order. */
  function JoinDomain(defs: Definitions, ds: seq<Option<string>>, inp: InputDef): (r: Definitions)
    ensures r.Keys == defs.Keys
  {
    if ds == [] then defs
    else if !Truthy(ds[0]) then JoinDomain(defs, ds[1..], inp)
    else if ds[0].value !in defs then defs
    else
      var k := ds[0].value;
      JoinDomain(defs[k := defs[k].(inputs := defs[k].inputs + [inp])], ds[1..], inp)
  }

  /** One iteration of the property loop. */
  function JoinProperty(defs: Definitions, p: Node, enumerations: map<string, seq<Node>>): (r: Definitions)
    ensures r.Keys == defs.Keys
  {
    if p.domain.None? then defs
    else match InputFor(p, enumerations)
      case None => defs
      case Some(inp) => JoinDomain(defs, p.domain.value, inp)
  }

  /** The table after the property loop has seen `ps`. */
  function JoinAll(defs: Definitions, ps: seq<Node>, enumerations: map<string, seq<Node>>): (r: Definitions)
    ensures r.Keys == defs.Keys
  {
    if ps == [] then defs
    else JoinProperty(JoinAll(defs, ps[..|ps| - 1], enumerations), ps[|ps| - 1], enumerations)
  }

  /** One iteration of the domain loop. */
  lemma JoinDomainStep(defs: Definitions, ds: seq<Option<string>>, j: nat, inp: InputDef)
    requires j < |ds|
    ensures !Truthy(ds[j]) ==> JoinDomain(defs, ds[j..], inp) == JoinDomain(defs, ds[j + 1..], inp)
    ensures Truthy(ds[j]) && ds[j].value !in defs ==> JoinDomain(defs, ds[j..], inp) == defs
    ensures Truthy(ds[j]) && ds[j].value in defs ==>
      var k := ds[j].value;
      JoinDomain(defs, ds[j..], inp) == JoinDomain(defs[k := defs[k].(inputs := defs[k].inputs + [inp])], ds[j + 1..], inp)
  {
    assert ds[j..][0] == ds[j] && ds[j..][1..] == ds[j + 1..];
  }

  lemma JoinAllStep(defs: Definitions, ps: seq<Node>, i: nat, enumerations: map<string, seq<Node>>)
    requires i < |ps|
    ensures JoinAll(defs, ps[..i + 1], enumerations) == JoinProperty(JoinAll(defs, ps[..i], enumerations), ps[i], enumerations)
  {
    assert ps[..i + 1][..i] == ps[..i];
  }

  /** Joining a domain adds exactly one copy of the input per processed
      truthy entry naming a class, and touches nothing else. */
  lemma {:induction false} JoinDomainCounts(defs: Definitions, ds: seq<Option<string>>, inp: InputDef)
    ensures forall k :: k in defs ==>
      JoinDomain(defs, ds, inp)[k] == defs[k].(inputs := defs[k].inputs + Repeat(inp, Hits(Processed(ds, defs.Keys), k)))
  {
    if ds != [] {
      var keys := defs.Keys;
      var tail := Processed(ds[1..], keys);
      if !Truthy(ds[0]) {
        JoinDomainCounts(defs, ds[1..], inp);
        assert Processed(ds, keys) == [ds[0]] + tail;
        forall k | k in defs
          ensures Hits(Processed(ds, keys), k) == Hits(tail, k)
        {
          HitsCons(ds[0], tail, k);
        }
      } else if ds[0].value in defs {
        var k0 := ds[0].value;
        var pushed := defs[k0 := defs[k0].(inputs := defs[k0].inputs + [inp])];
        assert JoinDomain(defs, ds, inp) == JoinDomain(pushed, ds[1..], inp);
        JoinDomainCounts(pushed, ds[1..], inp);
        assert pushed.Keys == keys;
        assert Processed(ds, keys) == [ds[0]] + tail;
        forall k | k in defs
          ensures JoinDomain(defs, ds, inp)[k] ==
            defs[k].(inputs := defs[k].inputs + Repeat(inp, Hits(Processed(ds, keys), k)))
        {
          HitsCons(ds[0], tail, k);
          if k == k0 {
            var n := Hits(tail, k);
            assert Repeat(inp, n + 1) == [inp] + Repeat(inp, n);
            assert defs[k].inputs + [inp] + Repeat(inp, n) == defs[k].inputs + Repeat(inp, n + 1);
          }
        }
      }
    }
  }

  lemma HitsCons(d: Option<string>, rest: seq<Option<string>>, k: string)
    ensures Hits([d] + rest, k) == (if k != "" && d == Some(k) then 1 else 0) + Hits(rest, k)
  {
    assert ([d] + rest)[1..] == rest;
  }

  /** When every truthy domain entry names a class, every entry is processed. */
  lemma {:induction false} ProcessedAll(ds: seq<Option<string>>, keys: set<string>)
    requires forall d :: d in ds && Truthy(d) ==> d.value in keys
    ensures Processed(ds, keys) == ds
  {
    if ds != [] {
      assert ds[0] in ds;
      ProcessedAll(ds[1..], keys);
    }
  }

  /** A property keeps every field but the inputs, and only appends to them. */
  lemma JoinPropertyKeeps(defs: Definitions, p: Node, enumerations: map<string, seq<Node>>)
    ensures forall k :: k in defs ==>
      var d := JoinProperty(defs, p, enumerations)[k];
      d == defs[k].(inputs := d.inputs) && defs[k].inputs <= d.inputs
  {
    if p.domain.Some? && InputFor(p, enumerations).Some? {
      JoinDomainCounts(defs, p.domain.value, InputFor(p, enumerations).value);
    }
  }

  /** The property loop keeps the set of classes and every field but the
      inputs, and only ever appends to the inputs. */
  lemma {:induction false} JoinAllKeeps(defs: Definitions, ps: seq<Node>, enumerations: map<string, seq<Node>>)
    ensures forall k :: k in defs ==>
      var d := JoinAll(defs, ps, enumerations)[k];
      d == defs[k].(inputs := d.inputs) && defs[k].inputs <= d.inputs
  {
    if ps != [] {
      var before := JoinAll(defs, ps[..|ps| - 1], enumerations);
      JoinAllKeeps(defs, ps[..|ps| - 1], enumerations);
      JoinPropertyKeeps(before, ps[|ps| - 1], enumerations);
    }
  }

  function InputName(i: InputDef): Option<string> { i.name }

  /** `orderBy(inputs, "name")` on one class. */
  function SortInputs(d: ClassDef): ClassDef
  {
    d.(inputs := SortBy(d.inputs, InputName))
  }

  /** Builds the input of a property for one domain entry: the rewrite
      functions for the type list, then the `forEach` that keeps the values of
      the last enumeration type. */
  method BuildInput(property: Node, enumerations: map<string, seq<Node>>) returns (r: Option<InputDef>)
    ensures r == InputFor(property, enumerations)
  {
    if property.range.None? {
      return None;
    }
    var types := RewrittenTypes(property.id, property.range.value);
    var values: Option<seq<Option<string>>> := None;
    for k := 0 to |types|
      invariant values == EnumValues(types[..k], enumerations)
    {
      var t := types[k];
      assert types[..k + 1][..k] == types[..k];
      if JsKey(t) in enumerations {
        values := Some(MemberIds(enumerations[JsKey(t)]));
      }
    }
    assert types[..|types|] == types;
    if values.Some? {
      types := types + [Some(SelectUrl)];
    }
    return Some(InputDef(property.id, property.name, property.labelText, property.comment,
                         false, property.id != Some(NameProperty), false, false, types, values));
  }

  /** The body of the property loop: the `try` block pushes the property's
      input onto each class its domain names, and a throw (no range, or a
      class missing from the table) skips the rest of the domain. */
  method JoinPropertyInto(definitions: Definitions, property: Node, enumerations: map<string, seq<Node>>)
    returns (defs: Definitions)
    ensures defs == JoinProperty(definitions, property, enumerations)
  {
    defs := definitions;
    if property.domain.None? {
      return;
    }
    var ds := property.domain.value;
    ghost var inp := InputFor(property, enumerations);
    var j := 0;
    while j < |ds|
      invariant 0 <= j <= |ds|
      invariant inp.None? ==> defs == definitions
      invariant inp.Some? ==> JoinDomain(defs, ds[j..], inp.value) == JoinProperty(definitions, property, enumerations)
    {
      var classDefinition := ds[j];
      if inp.Some? {
        JoinDomainStep(defs, ds, j, inp.value);
      }
      if !Truthy(classDefinition) {
        j := j + 1;
        continue;
      }
      var inputDefinition := BuildInput(property, enumerations);
      if inputDefinition.None? {
        return;
      }
      var c := classDefinition.value;
      if c !in defs {
        return;
      }
      defs := defs[c := defs[c].(inputs := defs[c].inputs + [inputDefinition.value])];
      j := j + 1;
    }
  }

  /** `mapPropertiesToClasses`: joins every property into the classes of its
      domain, then orders each class's inputs by name. */
  method MapPropertiesToClasses(definitions: Definitions, properties: seq<Node>, enumerations: map<string, seq<Node>>)
    returns (result: Definitions)
    ensures result.Keys == definitions.Keys
    ensures forall k :: k in result ==> result[k] == SortInputs(JoinAll(definitions, properties, enumerations)[k])
  {
    var defs := definitions;
    for i := 0 to |properties|
      invariant defs == JoinAll(definitions, properties[..i], enumerations)
    {
      JoinAllStep(definitions, properties, i, enumerations);
      defs := JoinPropertyInto(defs, properties[i], enumerations);
    }
    assert properties[..|properties|] == properties;
    result := OrderInputs(defs);
  }

  /** The closing loop of `mapPropertiesToClasses`: orders every class's
      inputs by name. */
  method OrderInputs(defs: Definitions) returns (result: Definitions)
    ensures result.Keys == defs.Keys
    ensures forall k :: k in defs ==> result[k] == SortInputs(defs[k])
  {
    result := defs;
    var todo := defs.Keys;
    while todo != {}
      invariant todo <= defs.Keys && result.Keys == defs.Keys
      invariant forall k :: k in todo ==> result[k] == defs[k]
      invariant forall k :: k in defs && k !in todo ==> result[k] == SortInputs(defs[k])
      decreases todo
    {
      var c :| c in todo;
      result := result[c := SortInputs(result[c])];
      todo := todo - {c};
    }
  }
}
