/** The class-definition table of `createDescriboMainProfile`
    (lib.js:44-61): one entry per distinct class label, taken from the first
    class carrying that label, and the record types the later stages fill
    in. */
module Definitions {
  import opened Wrappers
  import opened Text
  import opened Entities

  /** One input of a class: a property the class can carry. `types` is the
      input's `type` list; `values` the enumeration members, if any. */
  datatype InputDef = InputDef(
    id: Option<string>,
    name: Option<string>,
    labelText: Option<string>,
    help: Option<string>,
    required: bool,
    multiple: bool,
    hide: bool,
    readonly: bool,
    types: seq<Option<string>>,
    values: Option<seq<Option<string>>>)

  /** A class definition of the profile. */
  datatype ClassDef = ClassDef(
    id: Option<string>,
    name: Option<string>,
    help: Option<string>,
    subClassOf: Option<seq<Option<string>>>,
    inputs: seq<InputDef>,
    hierarchy: seq<string>)

  type Definitions = map<string, ClassDef>

  /** The key a class is filed under: its label, "undefined" when it has none. */
  function LabelKey(c: Node): string
  {
    JsKey(c.labelText)
  }

  /** The entry created for a class: its id, name and comment, its parents as
      `subClassOf`, no inputs yet. */
  function Entry(c: Node): ClassDef
  {
    ClassDef(c.id, c.name, c.comment, c.domain, [], [])
  }

  /** The table after the loop has seen `cs`: a later class with a label
      already present is skipped. */
  function Table(cs: seq<Node>): (r: Definitions)
    ensures forall k :: k in r ==> r[k].inputs == []
  {
    if cs == [] then map[]
    else
      var m := Table(cs[..|cs| - 1]);
      var c := cs[|cs| - 1];
      if LabelKey(c) in m then m else m[LabelKey(c) := Entry(c)]
  }

  /** The definitions loop of `createDescriboMainProfile`. */
  method BuildDefinitions(classes: seq<Node>) returns (definitions: Definitions)
    ensures definitions == Table(classes)
  {
    definitions := map[];
    for i := 0 to |classes|
      invariant definitions == Table(classes[..i])
    {
      var c := classes[i];
      assert classes[..i + 1][..i] == classes[..i];
      if LabelKey(c) !in definitions {
        definitions := definitions[LabelKey(c) := Entry(c)];
      }
    }
    assert classes[..|classes|] == classes;
  }

  /** The table has exactly one key per distinct label. */
  lemma {:induction false} TableKeys(cs: seq<Node>)
    ensures forall k :: k in Table(cs) <==> exists c :: c in cs && LabelKey(c) == k
  {
    if cs != [] {
      var a := cs[..|cs| - 1];
      assert cs == a + [cs[|cs| - 1]];
      TableKeys(a);
    }
  }

  /** The entry for a label is built from the first class carrying it. */
  lemma {:induction false} TableFirstWriterWins(cs: seq<Node>, i: nat)
    requires i < |cs|
    requires forall j :: 0 <= j < i ==> LabelKey(cs[j]) != LabelKey(cs[i])
    ensures LabelKey(cs[i]) in Table(cs)
    ensures Table(cs)[LabelKey(cs[i])] == Entry(cs[i])
  {
    var a := cs[..|cs| - 1];
    if i < |cs| - 1 {
      TableFirstWriterWins(a, i);
    } else {
      TableKeys(a);
      forall c | c in a ensures LabelKey(c) != LabelKey(cs[i]) {
        var j :| 0 <= j < |a| && a[j] == c;
        assert cs[j] == c;
      }
    }
  }

  /** Appending classes never replaces an entry: base schema classes come
      first, so an extension class that repeats a base label is ignored. */
  lemma {:induction false} TableExtends(base: seq<Node>, ext: seq<Node>)
    ensures Table(base).Keys <= Table(base + ext).Keys
    ensures forall k :: k in Table(base) ==> Table(base + ext)[k] == Table(base)[k]
  {
    if ext != [] {
      var e := ext[..|ext| - 1];
      assert (base + ext)[..|base + ext| - 1] == base + e;
      TableExtends(base, e);
    } else {
      assert base + ext == base;
    }
  }
}
