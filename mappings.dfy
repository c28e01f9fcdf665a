/** The class renames of `applyMappings` (lib.js:404-441): every class the
    rename table names is copied under its new name, and the input types of
    both copies are rewritten through the table, de-duplicated and sorted.
    The old entry stays in the profile. */
module Mappings {
  import opened Wrappers
  import opened Text
  import opened Seqs
  import opened Sorting
  import opened Configuration
  import opened Definitions

  /** A type name through the rename table; names it does not rename, and
      `undefined`, stay as they are. */
  function RenameType(t: Option<string>): (r: Option<string>)
    ensures JsKey(t) in Renames && Renames[JsKey(t)] != "" ==> r == Some(Renames[JsKey(t)])
    ensures JsKey(t) !in Renames ==> r == t
    ensures r.Some? ==> r.value !in Renames
  {
    RenamesWellFormed();
    if JsKey(t) in Renames && Renames[JsKey(t)] != "" then Some(Renames[JsKey(t)]) else t
  }

  /** Whether a type name is one the table renames away. */
  predicate Renamed(t: Option<string>)
  {
    t.Some? && t.value in Renames
  }

  /** An input's type list after the rename: every name renamed, each name
      once, in sort order. */
  function RenameTypes(ts: seq<Option<string>>): (r: seq<Option<string>>)
    ensures SortedBy(r, Id)
    ensures NoDup(r)
    ensures forall x :: x in r <==> exists i :: 0 <= i < |ts| && x == RenameType(ts[i])
    ensures forall x :: x in r ==> !Renamed(x)
  {
    var renamed := seq(|ts|, i requires 0 <= i < |ts| => RenameType(ts[i]));
    var u := Uniq(renamed);
    var r := SortBy(u, Id);
    NoDupCounts(u);
    NoDupCounts(r);
    assert forall x :: x in r <==> x in u by {
      forall x ensures x in r <==> x in u {
        assert x in r <==> x in multiset(r);
        assert x in u <==> x in multiset(u);
      }
    }
    assert forall x :: x in renamed <==> exists i :: 0 <= i < |ts| && x == RenameType(ts[i]) by {
      forall x | x in renamed ensures exists i :: 0 <= i < |ts| && x == RenameType(ts[i]) {
        var j :| 0 <= j < |renamed| && renamed[j] == x;
        assert x == RenameType(ts[j]);
      }
      forall x | exists i :: 0 <= i < |ts| && x == RenameType(ts[i]) ensures x in renamed {
        var j :| 0 <= j < |ts| && x == RenameType(ts[j]);
        assert renamed[j] == x;
      }
    }
    r
  }

  /** Rewriting the types twice is rewriting them once. */
  lemma RenameTypesIdempotent(ts: seq<Option<string>>)
    ensures RenameTypes(RenameTypes(ts)) == RenameTypes(ts)
  {
    var r := RenameTypes(ts);
    var renamed := seq(|r|, i requires 0 <= i < |r| => RenameType(r[i]));
    assert renamed == r by {
      forall i | 0 <= i < |r| ensures renamed[i] == r[i] {
        assert r[i] in r;
      }
    }
    UniqOfNoDup(r);
    SortBySorted(r, Id);
  }

  /** Step 2 and 3 of a rename: the input with its types rewritten. */
  function RewriteInput(i: InputDef): InputDef
  {
    i.(types := RenameTypes(i.types))
  }

  /** A class with every input's types rewritten. */
  function RewriteInputs(d: ClassDef): (r: ClassDef)
    ensures |r.inputs| == |d.inputs|
    ensures forall i :: 0 <= i < |d.inputs| ==> r.inputs[i] == RewriteInput(d.inputs[i])
    ensures r.(inputs := d.inputs) == d
  {
    d.(inputs := seq(|d.inputs|, i requires 0 <= i < |d.inputs| => RewriteInput(d.inputs[i])))
  }

  lemma RewriteInputsIdempotent(d: ClassDef)
    ensures RewriteInputs(RewriteInputs(d)) == RewriteInputs(d)
  {
    var r := RewriteInputs(d);
    assert RewriteInputs(r).inputs == r.inputs by {
      forall i | 0 <= i < |r.inputs| ensures RewriteInput(r.inputs[i]) == r.inputs[i] {
        RenameTypesIdempotent(d.inputs[i].types);
      }
    }
  }

  /** The hierarchy of the copy: the old class name replaced by the new one. */
  function Rehome(h: seq<string>, source: string, target: string): (r: seq<string>)
    ensures |r| == |h|
    ensures forall i :: 0 <= i < |h| ==> r[i] == (if h[i] == source then target else h[i])
  {
    seq(|h|, i requires 0 <= i < |h| => if h[i] == source then target else h[i])
  }

  /** The copy filed under the new name: cloned, re-homed, renamed, and
      with its input types rewritten. */
  function Copy(d: ClassDef, source: string, target: string): ClassDef
  {
    RewriteInputs(d.(hierarchy := Rehome(d.hierarchy, source, target), name := Some(target)))
  }

  /** A rename table and its inverse: no new name is itself renamed, and
      each new name comes from exactly one class. */
  predicate Invertible(table: map<string, string>, sources: map<string, string>)
  {
    && (forall a :: a in table ==> table[a] in sources && sources[table[a]] == a)
    && (forall t :: t in sources ==> sources[t] in table && table[sources[t]] == t)
    && (forall t :: t in sources ==> t !in table)
    && (forall a :: a in table ==> table[a] != "")
  }

  lemma RenameTablesInvertible()
    ensures Invertible(Renames, RenameSources)
  {
    RenamesWellFormed();
    RenameSourcesInverse();
  }

  /** The new names of the renamed classes among `done`. */
  function Targets(table: map<string, string>, sources: map<string, string>, done: set<string>): (r: set<string>)
    requires Invertible(table, sources)
    ensures forall t :: t in r <==> t in sources && sources[t] in done
  {
    set s | s in done && s in table :: table[s]
  }

  /** The entry under `k` once the classes in `done` have been renamed. */
  function Entry(table: map<string, string>, sources: map<string, string>,
                 defs: Definitions, done: set<string>, k: string): ClassDef
    requires Invertible(table, sources) && done <= defs.Keys
    requires k in defs || k in Targets(table, sources, done)
  {
    if k in done && k in table then RewriteInputs(defs[k])
    else if k in sources && sources[k] in done then Copy(defs[sources[k]], sources[k], k)
    else defs[k]
  }

  /** The table once the classes in `done` have been renamed. */
  function Partial(table: map<string, string>, sources: map<string, string>,
                   defs: Definitions, done: set<string>): Definitions
    requires Invertible(table, sources) && done <= defs.Keys
  {
    map k | k in defs.Keys + Targets(table, sources, done) :: Entry(table, sources, defs, done, k)
  }

  /** The table after `applyMappings`. */
  function Mapped(defs: Definitions): (r: Definitions)
    ensures defs.Keys <= r.Keys
  {
    RenameTablesInvertible();
    Partial(Renames, RenameSources, defs, defs.Keys)
  }

  /** One pass of the loop body, in the order the source performs it. */
  lemma PartialStep(table: map<string, string>, sources: map<string, string>,
                    defs: Definitions, done: set<string>, s: string)
    requires Invertible(table, sources) && done <= defs.Keys
    requires s in defs && s !in done && s in table
    ensures
      var p := Partial(table, sources, defs, done);
      var target := table[s];
      var cloned := p[s].(hierarchy := Rehome(p[s].hierarchy, s, target), name := Some(target));
      var p1 := p[target := cloned];
      var p2 := p1[s := RewriteInputs(p1[s])];
      Partial(table, sources, defs, done + {s}) == p2[target := RewriteInputs(p2[target])]
  {
    var p := Partial(table, sources, defs, done);
    assert p[s] == defs[s];
  }

  lemma PartialSkip(table: map<string, string>, sources: map<string, string>,
                    defs: Definitions, done: set<string>, s: string)
    requires Invertible(table, sources) && done <= defs.Keys
    requires s in defs && s !in done && s !in table
    ensures Partial(table, sources, defs, done + {s}) == Partial(table, sources, defs, done)
  {
  }

  /** The loop body of `applyMappings` for one class of the original table,
      with `table` the rename table and `sources` its inverse. */
  method MapClass(definitions: Definitions, className: string, table: map<string, string>,
                  ghost sources: map<string, string>, ghost original: Definitions, ghost done: set<string>)
    returns (result: Definitions)
    requires Invertible(table, sources)
    requires done <= original.Keys && className in original && className !in done
    requires definitions == Partial(table, sources, original, done)
    ensures result == Partial(table, sources, original, done + {className})
  {
    result := definitions;
    if className !in table || table[className] == "" {
      PartialSkip(table, sources, original, done, className);
      return;
    }
    var newClassName := table[className];
    PartialStep(table, sources, original, done, className);
    result := result[newClassName := result[className].(
      hierarchy := Rehome(result[className].hierarchy, className, newClassName),
      name := Some(newClassName))];
    result := result[className := RewriteInputs(result[className])];
    result := result[newClassName := RewriteInputs(result[newClassName])];
  }

  lemma PartialNone(table: map<string, string>, sources: map<string, string>, defs: Definitions)
    requires Invertible(table, sources)
    ensures Partial(table, sources, defs, {}) == defs
  {
  }

  /** The loop of `applyMappings` over the classes present at the start, in
      any order. */
  method MapClasses(definitions: Definitions, table: map<string, string>, ghost sources: map<string, string>)
    returns (result: Definitions)
    requires Invertible(table, sources)
    ensures result == Partial(table, sources, definitions, definitions.Keys)
  {
    result := definitions;
    var todo := definitions.Keys;
    ghost var done: set<string> := {};
    PartialNone(table, sources, definitions);
    while todo != {}
      invariant done <= definitions.Keys && todo == definitions.Keys - done
      invariant result == Partial(table, sources, definitions, done)
      decreases todo
    {
      var className :| className in todo;
      todo := todo - {className};
      result := MapClass(result, className, table, sources, definitions, done);
      done := done + {className};
    }
    assert done == definitions.Keys;
  }

  /** `applyMappings`: copy every renamed class to its new name and rewrite
      the input types of both entries. */
  method ApplyMappings(definitions: Definitions) returns (result: Definitions)
    ensures result == Mapped(definitions)
  {
    RenameTablesInvertible();
    result := MapClasses(definitions, Renames, RenameSources);
    MappedIsPartial(definitions, definitions.Keys);
  }

  lemma MappedIsPartial(defs: Definitions, done: set<string>)
    requires done == defs.Keys
    ensures Invertible(Renames, RenameSources)
    ensures Mapped(defs) == Partial(Renames, RenameSources, defs, done)
  {
    RenameTablesInvertible();
  }

  /** No class disappears; every renamed class present gains its new name. */
  lemma MappedKeys(defs: Definitions)
    ensures Mapped(defs).Keys == defs.Keys + Targets(Renames, RenameSources, defs.Keys)
    ensures forall k :: k in defs ==> k in Mapped(defs)
    ensures forall s :: s in defs && s in Renames ==> Renames[s] in Mapped(defs)
    ensures forall k :: k in Mapped(defs) && k !in defs ==> k in RenameSources && RenameSources[k] in defs
  {
    RenameSourcesInverse();
  }

  /** A renamed class keeps its entry, with its input types rewritten, and
      its copy is filed under the new name, named after it, with the same
      inputs and its own name replaced in the hierarchy. */
  lemma MappedRenamed(defs: Definitions, s: string)
    requires s in defs && s in Renames
    ensures Mapped(defs)[s] == RewriteInputs(defs[s])
    ensures
      var c := Mapped(defs)[Renames[s]];
      && c.name == Some(Renames[s])
      && c.id == defs[s].id && c.help == defs[s].help && c.subClassOf == defs[s].subClassOf
      && c.inputs == Mapped(defs)[s].inputs
      && c.hierarchy == Rehome(defs[s].hierarchy, s, Renames[s])
  {
    RenamesWellFormed();
    RenameSourcesInverse();
  }

  /** A class that is neither renamed nor a rename target is left alone: its
      input types are not rewritten, not even de-duplicated or sorted. */
  lemma MappedUntouched(defs: Definitions, k: string)
    requires k in defs && k !in Renames
    requires k !in RenameSources || RenameSources[k] !in defs
    ensures Mapped(defs)[k] == defs[k]
  {
    RenameTablesInvertible();
  }

  /** A class that is not a rename target keeps everything but its inputs,
      and keeps as many inputs as it had. */
  lemma MappedKeepsFields(defs: Definitions, k: string)
    requires k in defs && k !in RenameSources
    ensures k in Mapped(defs)
    ensures Mapped(defs)[k] == defs[k].(inputs := Mapped(defs)[k].inputs)
    ensures |Mapped(defs)[k].inputs| == |defs[k].inputs|
  {
    RenameTablesInvertible();
  }

  /** An existing class under a new name is replaced by the copy. */
  lemma MappedOverwrites(defs: Definitions, s: string)
    requires s in defs && s in Renames && Renames[s] in defs
    ensures Mapped(defs)[Renames[s]] == Copy(defs[s], s, Renames[s])
  {
    RenameTablesInvertible();
  }

  /** No input of a renamed class or of its copy still names a renamed type. */
  lemma MappedTypesRenamed(defs: Definitions, s: string)
    requires s in defs && s in Renames
    ensures forall i, x :: 0 <= i < |Mapped(defs)[s].inputs| && x in Mapped(defs)[s].inputs[i].types ==> !Renamed(x)
    ensures Renames[s] in Mapped(defs)
    ensures forall i, x ::
      0 <= i < |Mapped(defs)[Renames[s]].inputs| && x in Mapped(defs)[Renames[s]].inputs[i].types ==> !Renamed(x)
  {
    RenameTablesInvertible();
  }

  lemma {:induction false} PartialIdempotent(table: map<string, string>, sources: map<string, string>, defs: Definitions)
    requires Invertible(table, sources)
    ensures
      var m := Partial(table, sources, defs, defs.Keys);
      Partial(table, sources, m, m.Keys) == m
  {
    var m := Partial(table, sources, defs, defs.Keys);
    var mm := Partial(table, sources, m, m.Keys);
    assert mm.Keys == m.Keys;
    forall k | k in m ensures mm[k] == m[k] {
      if k in table {
        RewriteInputsIdempotent(defs[k]);
      } else if k in sources && sources[k] in defs {
        var s := sources[k];
        var d := defs[s];
        RewriteInputsIdempotent(d.(hierarchy := Rehome(d.hierarchy, s, k), name := Some(k)));
        assert Rehome(Rehome(d.hierarchy, s, k), s, k) == Rehome(d.hierarchy, s, k);
      }
    }
  }

  /** Applying the renames a second time changes nothing. */
  lemma MappedIdempotent(defs: Definitions)
    ensures Mapped(Mapped(defs)) == Mapped(defs)
  {
    RenameTablesInvertible();
    PartialIdempotent(Renames, RenameSources, defs);
  }
}
