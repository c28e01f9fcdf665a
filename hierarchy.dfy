/** `mapClassHierarchies` and its inner `getParent` (lib.js:303-322): every
    class gets the flattened list of itself and its ancestors, duplicates
    kept at their last depth-first position.

    `getParent` recurses through `subClassOf` without any guard, so a cycle
    makes it recurse until the JavaScript stack overflows and the whole run
    fails. The walk here carries the set of keys on the current recursion
    path and reports `CyclicHierarchy` exactly where the JavaScript recursion
    would re-enter a call it is already inside. */
module Hierarchy {
  import opened Wrappers
  import opened Text
  import opened Entities
  import opened Definitions
  import opened Seqs

  /** `getParent` expands a key only when the table has it and its
      `subClassOf` is set. */
  predicate Expandable(defs: Definitions, k: string)
  {
    k in defs && defs[k].subClassOf.Some?
  }

  /** The flattened result of `getParent(k)`: for each parent entry `d`, `d`
      followed by the ancestors of `d`, depth first. A parent is looked up
      under its JavaScript property key, so an `undefined` entry reads the
      key "undefined". */
  function Ancestors(defs: Definitions, k: string, path: set<string>): (r: Result<seq<Option<string>>, RunError>)
    ensures r.Err? ==> r.error == CyclicHierarchy
    decreases defs.Keys - path, 0
  {
    if Expandable(defs, k) then
      if k in path then Err(CyclicHierarchy)
      else AncestorsOf(defs, defs[k].subClassOf.value, path + {k})
    else Ok([])
  }

  function AncestorsOf(defs: Definitions, ds: seq<Option<string>>, path: set<string>): (r: Result<seq<Option<string>>, RunError>)
    ensures r.Err? ==> r.error == CyclicHierarchy
    decreases defs.Keys - path, 1, |ds|
  {
    if ds == [] then Ok([])
    else match Ancestors(defs, JsKey(ds[0]), path)
      case Err(e) => Err(e)
      case Ok(a) =>
        match AncestorsOf(defs, ds[1..], path)
        case Err(e) => Err(e)
        case Ok(rest) => Ok([ds[0]] + a + rest)
  }

  /** lodash `compact` on a list of names: drops `undefined` and "". */
  function Compact(s: seq<Option<string>>): (r: seq<string>)
    ensures forall x :: x in r <==> Some(x) in s && x != ""
  {
    if s == [] then []
    else if Truthy(s[0]) then [s[0].value] + Compact(s[1..])
    else Compact(s[1..])
  }

  /** The `hierarchy` of one class: the class followed by its ancestors,
      falsy names removed, and `uniq` applied to the reversed list. */
  function ClassHierarchy(defs: Definitions, k: string): (r: Result<seq<string>, RunError>)
    ensures r.Err? ==> r.error == CyclicHierarchy
  {
    match Ancestors(defs, k, {})
    case Err(e) => Err(e)
    case Ok(a) => Ok(Reverse(Uniq(Reverse(Compact([Some(k)] + a)))))
  }

  /** Reversing around `uniq` keeps every repeated name at its last
      depth-first position. */
  lemma HierarchyKeepsLast(defs: Definitions, k: string)
    requires ClassHierarchy(defs, k).Ok?
    ensures ClassHierarchy(defs, k).value == KeepLast(Compact([Some(k)] + Ancestors(defs, k, {}).value))
  {
    ReverseUniqReverse(Compact([Some(k)] + Ancestors(defs, k, {}).value));
  }

  /** A hierarchy has no duplicates and no falsy entries, and holds the
      class itself and each truthy name of its ancestor list. */
  lemma HierarchyMembers(defs: Definitions, k: string)
    requires ClassHierarchy(defs, k).Ok?
    ensures NoDup(ClassHierarchy(defs, k).value)
    ensures "" !in ClassHierarchy(defs, k).value
    ensures forall x :: x in ClassHierarchy(defs, k).value <==>
      (x == k && k != "") || (Some(x) in Ancestors(defs, k, {}).value && x != "")
  {
    HierarchyKeepsLast(defs, k);
  }

  /** A name that is not an expandable key is a leaf: it is its own whole
      hierarchy. */
  lemma HierarchyOfLeaf(defs: Definitions, k: string)
    requires !Expandable(defs, k) && k != ""
    ensures ClassHierarchy(defs, k) == Ok([k])
  {
    HierarchyKeepsLast(defs, k);
  }

  /** An empty parent list is truthy in JS but maps to nothing: the class is
      again its own whole hierarchy. */
  lemma HierarchyOfEmptyParents(defs: Definitions, k: string)
    requires k in defs && defs[k].subClassOf == Some([]) && k != ""
    ensures ClassHierarchy(defs, k) == Ok([k])
  {
    HierarchyKeepsLast(defs, k);
  }

  /** The results of a list of parents are those of each parent, in order. */
  lemma {:induction false} AncestorsOfParts(defs: Definitions, ds: seq<Option<string>>, path: set<string>)
    requires AncestorsOf(defs, ds, path).Ok?
    ensures forall i :: 0 <= i < |ds| ==> Ancestors(defs, JsKey(ds[i]), path).Ok?
    ensures forall x :: x in AncestorsOf(defs, ds, path).value <==>
      exists i :: 0 <= i < |ds| && (x == ds[i] || x in Ancestors(defs, JsKey(ds[i]), path).value)
    decreases |ds|
  {
    if ds != [] {
      AncestorsOfParts(defs, ds[1..], path);
      forall x
        ensures x in AncestorsOf(defs, ds, path).value <==>
          exists i :: 0 <= i < |ds| && (x == ds[i] || x in Ancestors(defs, JsKey(ds[i]), path).value)
      {
        if exists i :: 0 <= i < |ds| && (x == ds[i] || x in Ancestors(defs, JsKey(ds[i]), path).value) {
          var i :| 0 <= i < |ds| && (x == ds[i] || x in Ancestors(defs, JsKey(ds[i]), path).value);
          if i > 0 {
            assert ds[1..][i - 1] == ds[i];
          }
        }
      }
    }
  }

  /** A walk that succeeds does not depend on how much of the path it was
      started with. */
  lemma {:induction false} AncestorsPathFree(defs: Definitions, k: string, path: set<string>, fewer: set<string>)
    requires fewer <= path && Ancestors(defs, k, path).Ok?
    ensures Ancestors(defs, k, fewer) == Ancestors(defs, k, path)
    decreases defs.Keys - path, 0
  {
    if Expandable(defs, k) {
      AncestorsOfPathFree(defs, defs[k].subClassOf.value, path + {k}, fewer + {k});
    }
  }

  lemma {:induction false} AncestorsOfPathFree(defs: Definitions, ds: seq<Option<string>>, path: set<string>, fewer: set<string>)
    requires fewer <= path && AncestorsOf(defs, ds, path).Ok?
    ensures AncestorsOf(defs, ds, fewer) == AncestorsOf(defs, ds, path)
    decreases defs.Keys - path, 1, |ds|
  {
    if ds != [] {
      AncestorsPathFree(defs, JsKey(ds[0]), path, fewer);
      AncestorsOfPathFree(defs, ds[1..], path, fewer);
    }
  }

  /** The class's own name never comes back among its ancestors when the
      walk succeeds. */
  lemma {:induction false} AncestorsAvoidPath(defs: Definitions, j: string, path: set<string>, k: string)
    requires Ancestors(defs, j, path).Ok?
    requires k in path && Expandable(defs, k)
    ensures Some(k) !in Ancestors(defs, j, path).value
    decreases defs.Keys - path, 0
  {
    if Expandable(defs, j) {
      AncestorsOfAvoidPath(defs, defs[j].subClassOf.value, path + {j}, k);
    }
  }

  lemma {:induction false} AncestorsOfAvoidPath(defs: Definitions, ds: seq<Option<string>>, path: set<string>, k: string)
    requires AncestorsOf(defs, ds, path).Ok?
    requires k in path && Expandable(defs, k)
    ensures Some(k) !in AncestorsOf(defs, ds, path).value
    decreases defs.Keys - path, 1, |ds|
  {
    if ds != [] {
      AncestorsAvoidPath(defs, JsKey(ds[0]), path, k);
      AncestorsOfAvoidPath(defs, ds[1..], path, k);
    }
  }

  /** A hierarchy begins with its class. */
  lemma HierarchySelfFirst(defs: Definitions, k: string)
    requires ClassHierarchy(defs, k).Ok? && k != ""
    ensures |ClassHierarchy(defs, k).value| > 0 && ClassHierarchy(defs, k).value[0] == k
  {
    var a := Ancestors(defs, k, {}).value;
    if Expandable(defs, k) {
      assert {} + {k} == {k};
      AncestorsOfAvoidPath(defs, defs[k].subClassOf.value, {k}, k);
    }
    assert Some(k) !in a;
    assert Compact([Some(k)] + a) == [k] + Compact(a) by {
      assert ([Some(k)] + a)[1..] == a;
    }
    HierarchyKeepsLast(defs, k);
  }

  /** A hierarchy is exactly the class, the truthy parents and their
      hierarchies: it holds each truthy parent and everything in that
      parent's hierarchy, and nothing else but the class itself. */
  lemma HierarchyUnfolds(defs: Definitions, k: string)
    requires ClassHierarchy(defs, k).Ok? && Expandable(defs, k)
    ensures var ds := defs[k].subClassOf.value;
      forall i :: 0 <= i < |ds| ==> ClassHierarchy(defs, JsKey(ds[i])).Ok?
    ensures var ds, h := defs[k].subClassOf.value, ClassHierarchy(defs, k).value;
      forall i :: 0 <= i < |ds| && Truthy(ds[i]) ==>
        ds[i].value in h && forall x :: x in ClassHierarchy(defs, ds[i].value).value ==> x in h
    ensures var ds, h := defs[k].subClassOf.value, ClassHierarchy(defs, k).value;
      forall x :: x in h ==>
        || x == k
        || exists i :: 0 <= i < |ds| && (Some(x) == ds[i] || x in ClassHierarchy(defs, JsKey(ds[i])).value)
  {
    var ds := defs[k].subClassOf.value;
    assert {} + {k} == {k};
    var a := Ancestors(defs, k, {}).value;
    AncestorsOfParts(defs, ds, {k});
    HierarchyMembers(defs, k);
    forall i | 0 <= i < |ds|
      ensures ClassHierarchy(defs, JsKey(ds[i])).Ok?
      ensures Ancestors(defs, JsKey(ds[i]), {}) == Ancestors(defs, JsKey(ds[i]), {k})
      ensures forall x :: x in ClassHierarchy(defs, JsKey(ds[i])).value <==>
        (x == JsKey(ds[i]) && x != "") || (Some(x) in Ancestors(defs, JsKey(ds[i]), {k}).value && x != "")
    {
      AncestorsPathFree(defs, JsKey(ds[i]), {k}, {});
      HierarchyMembers(defs, JsKey(ds[i]));
    }
    forall i | 0 <= i < |ds| && Truthy(ds[i])
      ensures ds[i].value in ClassHierarchy(defs, k).value
    {
      assert ds[i] in a;
    }
  }

  /** A rank that strictly decreases from every expandable class to each of
      its expandable parents. */
  ghost predicate Ranked(defs: Definitions, rank: string -> nat)
  {
    forall k, i ::
      (Expandable(defs, k) && 0 <= i < |defs[k].subClassOf.value| &&
       Expandable(defs, JsKey(defs[k].subClassOf.value[i])))
      ==> rank(JsKey(defs[k].subClassOf.value[i])) < rank(k)
  }

  lemma {:induction false} RankedAncestors(defs: Definitions, rank: string -> nat, k: string, path: set<string>)
    requires Ranked(defs, rank)
    requires Expandable(defs, k) ==> forall p :: p in path ==> rank(k) < rank(p)
    ensures Ancestors(defs, k, path).Ok?
    decreases defs.Keys - path, 0
  {
    if Expandable(defs, k) {
      RankedAncestorsOf(defs, rank, k, defs[k].subClassOf.value, path + {k});
    }
  }

  lemma {:induction false} RankedAncestorsOf(defs: Definitions, rank: string -> nat, owner: string, ds: seq<Option<string>>, path: set<string>)
    requires Ranked(defs, rank) && Expandable(defs, owner)
    requires forall d :: d in ds ==> d in defs[owner].subClassOf.value
    requires forall p :: p in path ==> rank(owner) <= rank(p)
    ensures AncestorsOf(defs, ds, path).Ok?
    decreases defs.Keys - path, 1, |ds|
  {
    if ds != [] {
      assert ds[0] in ds;
      var i :| 0 <= i < |defs[owner].subClassOf.value| && defs[owner].subClassOf.value[i] == ds[0];
      RankedAncestors(defs, rank, JsKey(ds[0]), path);
      RankedAncestorsOf(defs, rank, owner, ds[1..], path);
    }
  }

  /** Without a cycle, every class gets a hierarchy. */
  lemma RankedHierarchy(defs: Definitions, rank: string -> nat, k: string)
    requires Ranked(defs, rank)
    ensures ClassHierarchy(defs, k).Ok?
  {
    RankedAncestors(defs, rank, k, {});
  }

  /** A class listed among its own parents makes the walk fail. */
  lemma SelfParentFails(defs: Definitions, k: string, i: nat)
    requires Expandable(defs, k) && i < |defs[k].subClassOf.value|
    requires JsKey(defs[k].subClassOf.value[i]) == k
    ensures ClassHierarchy(defs, k) == Err(CyclicHierarchy)
  {
    var ds := defs[k].subClassOf.value;
    assert {} + {k} == {k};
    AncestorsOfFailsAt(defs, ds, {k}, i);
  }

  lemma {:induction false} AncestorsOfFailsAt(defs: Definitions, ds: seq<Option<string>>, path: set<string>, i: nat)
    requires i < |ds| && Ancestors(defs, JsKey(ds[i]), path).Err?
    ensures AncestorsOf(defs, ds, path).Err?
    decreases i
  {
    if i > 0 {
      assert ds[1..][i - 1] == ds[i];
      AncestorsOfFailsAt(defs, ds[1..], path, i - 1);
    }
  }

  /** Two tables with the same keys and the same parent lists. */
  predicate SameParents(defs: Definitions, other: Definitions)
  {
    defs.Keys == other.Keys && forall k :: k in defs ==> defs[k].subClassOf == other[k].subClassOf
  }

  /** The walk reads nothing but the parent lists, so writing `hierarchy`
      entries while iterating does not change later results. */
  lemma {:induction false} AncestorsReadParents(defs: Definitions, other: Definitions, k: string, path: set<string>)
    requires SameParents(defs, other)
    ensures Ancestors(defs, k, path) == Ancestors(other, k, path)
    decreases defs.Keys - path, 0
  {
    if Expandable(defs, k) && k !in path {
      AncestorsOfReadParents(defs, other, defs[k].subClassOf.value, path + {k});
    }
  }

  lemma {:induction false} AncestorsOfReadParents(defs: Definitions, other: Definitions, ds: seq<Option<string>>, path: set<string>)
    requires SameParents(defs, other)
    ensures AncestorsOf(defs, ds, path) == AncestorsOf(other, ds, path)
    decreases defs.Keys - path, 1, |ds|
  {
    if ds != [] {
      AncestorsReadParents(defs, other, JsKey(ds[0]), path);
      AncestorsOfReadParents(defs, other, ds[1..], path);
    }
  }

  /** `b` is one of the parents `getParent(a)` recurses into. */
  predicate ParentStep(defs: Definitions, a: string, b: string)
  {
    Expandable(defs, a) && exists j :: 0 <= j < |defs[a].subClassOf.value| && JsKey(defs[a].subClassOf.value[j]) == b
  }

  /** A chain of classes, each a parent of the one before. */
  predicate IsWalk(defs: Definitions, c: seq<string>)
  {
    |c| >= 1 && forall t :: 0 <= t < |c| - 1 ==> ParentStep(defs, c[t], c[t + 1])
  }

  /** A chain that comes back to a class already on it. */
  predicate EndsInCycle(c: seq<string>)
  {
    |c| >= 1 && c[|c| - 1] in c[..|c| - 1]
  }

  /** The walk from a class can reach a cycle. */
  ghost predicate ReachesCycle(defs: Definitions, k: string)
  {
    exists c :: IsWalk(defs, c) && c[0] == k && EndsInCycle(c)
  }

  /** Once every class before position `i` of a chain ending in a cycle is on
      the recursion path, the walk from position `i` fails. */
  lemma {:induction false} CycleFailsFrom(defs: Definitions, c: seq<string>, m: nat, i: nat, path: set<string>)
    requires IsWalk(defs, c) && m < |c| - 1 && c[m] == c[|c| - 1]
    requires i < |c| && forall t :: 0 <= t < i ==> c[t] in path
    ensures Ancestors(defs, c[i], path).Err?
    decreases |c| - i
  {
    if i == |c| - 1 {
      assert ParentStep(defs, c[m], c[m + 1]);
    } else {
      assert ParentStep(defs, c[i], c[i + 1]);
      if c[i] !in path {
        var ds := defs[c[i]].subClassOf.value;
        var j :| 0 <= j < |ds| && JsKey(ds[j]) == c[i + 1];
        CycleFailsFrom(defs, c, m, i + 1, path + {c[i]});
        AncestorsOfFailsAt(defs, ds, path + {c[i]}, j);
      }
    }
  }

  /** A failing walk from `k` follows parents from `k` until it meets a class
      on the recursion path or one it has already passed. */
  lemma {:induction false} FailureWalk(defs: Definitions, k: string, path: set<string>) returns (c: seq<string>)
    requires Ancestors(defs, k, path).Err?
    ensures IsWalk(defs, c) && c[0] == k
    ensures Expandable(defs, c[|c| - 1])
    ensures c[|c| - 1] in path || c[|c| - 1] in c[..|c| - 1]
    decreases defs.Keys - path
  {
    if k in path {
      c := [k];
    } else {
      var ds := defs[k].subClassOf.value;
      var j := FailingParent(defs, ds, path + {k});
      var rest := FailureWalk(defs, JsKey(ds[j]), path + {k});
      c := [k] + rest;
      assert ParentStep(defs, k, rest[0]);
      forall t | 0 <= t < |c| - 1 ensures ParentStep(defs, c[t], c[t + 1]) {
        if t > 0 {
          assert c[t] == rest[t - 1] && c[t + 1] == rest[t];
        }
      }
      assert c[..|c| - 1] == [k] + rest[..|rest| - 1];
    }
  }

  /** A failing parent list has a parent whose walk fails. */
  lemma {:induction false} FailingParent(defs: Definitions, ds: seq<Option<string>>, path: set<string>) returns (j: nat)
    requires AncestorsOf(defs, ds, path).Err?
    ensures j < |ds| && Ancestors(defs, JsKey(ds[j]), path).Err?
    decreases |ds|
  {
    if Ancestors(defs, JsKey(ds[0]), path).Err? {
      j := 0;
    } else {
      var i := FailingParent(defs, ds[1..], path);
      assert ds[1..][i] == ds[i + 1];
      j := i + 1;
    }
  }

  /** `getParent` fails exactly when the parents of the class lead into a
      cycle, and the failure is then `CyclicHierarchy`. */
  lemma HierarchyErrorIsCycle(defs: Definitions, k: string)
    ensures ClassHierarchy(defs, k).Err? <==> ReachesCycle(defs, k)
    ensures ClassHierarchy(defs, k).Err? ==> ClassHierarchy(defs, k).error == CyclicHierarchy
  {
    if ClassHierarchy(defs, k).Err? {
      var c := FailureWalk(defs, k, {});
      assert IsWalk(defs, c) && c[0] == k && EndsInCycle(c);
    }
    if ReachesCycle(defs, k) {
      var c :| IsWalk(defs, c) && c[0] == k && EndsInCycle(c);
      var m :| 0 <= m < |c| - 1 && c[..|c| - 1][m] == c[|c| - 1];
      CycleFailsFrom(defs, c, m, 0, {});
    }
  }

  /** The entry of `k` once its hierarchy is written. */
  function WithHierarchy(classes: Definitions, k: string): ClassDef
    requires k in classes && ClassHierarchy(classes, k).Ok?
  {
    classes[k].(hierarchy := ClassHierarchy(classes, k).value)
  }

  /** `mapClassHierarchies`: assigns every class its hierarchy; a cycle
      anywhere in the table ends the run. */
  method MapClassHierarchies(classes: Definitions) returns (r: Result<Definitions, RunError>)
    ensures r.Err? <==> exists k :: k in classes && ClassHierarchy(classes, k).Err?
    ensures r.Err? ==> r.error == CyclicHierarchy
    ensures r.Ok? ==> r.value.Keys == classes.Keys
    ensures r.Ok? ==> forall k :: k in classes ==> r.value[k] == WithHierarchy(classes, k)
  {
    var result := classes;
    var todo := classes.Keys;
    while todo != {}
      invariant todo <= classes.Keys
      invariant SameParents(result, classes)
      invariant forall k :: k in classes && k !in todo ==> ClassHierarchy(classes, k).Ok?
      invariant forall k :: k in todo ==> result[k] == classes[k]
      invariant forall k :: k in classes && k !in todo ==> result[k] == WithHierarchy(classes, k)
      decreases todo
    {
      var className :| className in todo;
      AncestorsReadParents(result, classes, className, {});
      var h := ClassHierarchy(result, className);
      if h.Err? {
        HierarchyErrorIsCycle(classes, className);
        return Err(h.error);
      }
      result := result[className := result[className].(hierarchy := h.value)];
      todo := todo - {className};
    }
    return Ok(result);
  }
}
