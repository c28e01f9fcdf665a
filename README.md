# Describo type definitions, modelled in Dafny

The type-definitions builder reads the schema.org vocabulary (JSON-LD) and a
directory of RO-Crate extension crates, and assembles the *main profile* that
the Describo editor uses. The profile maps each class label to a definition:
its id, name, help text and parents, the class's hierarchy, and its inputs.
An input is one property the class can carry, with the value types it
accepts.

This project models that pipeline (`lib.js`) and its rule tables
(`configuration.js`):

- **Identifiers** (`identifiers.dfy`): `stripPrefix` and `expand`. An id is
  reduced to its local name; a prefixed id is expanded through the crate's
  `@context`.
- **Entities** (`entities.dfy`): `normaliseEntity`, `normaliseEntities` and
  `expandIdentifiers` on a crate's `@graph`. JS `undefined` is `None`. A
  property lookup with an undefined key reads the key `"undefined"`.
- **Extraction** (`extraction.dfy`): `getRootDataset`, and the extractors for
  classes, properties and "other definitions". The other definitions are the
  enumerations, grouped by type.
- **Definitions** (`definitions.dfy`): the class table built in
  `createDescriboMainProfile`. The first class carrying a label wins.
- **Hierarchy** (`hierarchy.dfy`): `mapClassHierarchies` and its recursive
  `getParent`.
- **Joiner** (`joiner.dfy`): `mapPropertiesToClasses`. This covers:
  - remapping of value types;
  - `Thing` widened to `Thing` and `ANY`;
  - the extra hasPart classes;
  - enumeration values with `SelectURL`;
  - the push into each domain class;
  - the final ordering of inputs by name.
- **Mappings** (`mappings.dfy`): `applyMappings`, the class renames.
- **Profile** (`profile.dfy`): `createDescriboMainProfile`. It takes the
  loaded vocabulary and the directory listing of extensions, paired with
  their crates, as parameters.
- **Configuration** (`configuration.dfy`): the `remap`, `mappings.classes`
  and `addClassesToProperty` tables.
- Support modules:
  - `wrappers.dfy`: `Option` and `Result`.
  - `text.dfy`: string splitting, and the code-point string order that
    stands for `Array.prototype.sort` (JS compares UTF-16 code units; see
    "## Left out").
  - `seqs.dfy`: lodash `uniq` and filtering.
  - `sorting.dfy`: a stable sort with `undefined` last.

Each loop of the source is a method. Each method is proved equal to a
specification function, and the properties are proved as lemmas about those
functions. Examples from `lib.spec.js` are restated as lemmas:

- `examples_identifiers.dfy`: the `stripPrefix` and `expand` cases.
- `examples_entities.dfy`: the `normaliseEntity` cases for a class and a
  property, each with and without its parent or domain.
- `examples_joiner.dfy`: the type lists of `hasPart`, `temporal` and
  `description` in the joined profile.

Behaviour the model keeps as the code has it:

- **The vocabulary is expanded unfiltered.** `createDescriboMainProfile`
  normalises the vocabulary but then expands the *original* crate
  (lib.js:21-22). Entities that failed normalisation therefore stay in the
  vocabulary graph, partly rewritten (`Entities.Touched`). Extensions use
  the filtered crate (`Entities.Survivors`).
- **`normaliseEntities` never stops the run.** Its catch clause binds a
  parameter named `error`, which shadows the flag it assigns (lib.js:249-263).
  So the flag stays `false` and the exit at lib.js:263 is unreachable. The
  model drops failing entities and carries on.
- **A hierarchy lists the class itself first, then its ancestors.** For a
  repeated ancestor, the last occurrence is kept (`uniq` between two
  `reverse` calls, lib.js:305-307). A cycle in `subClassOf` makes the
  recursion in `getParent` call itself until the JS stack overflows. The
  resulting `RangeError` is not caught, so the whole run is rejected. The
  model reports the cycle as `CyclicHierarchy`, and the whole run fails.
- **An extension without a root dataset ends the whole run.** This happens
  when the crate has no descriptor, or its descriptor has no `about`:
  `readExtension` lets the exception escape (lib.js:91).
- **`multiple` is false only for `https://schema.org/name`** (lib.js:342).
  The vocabulary's ids are `http://` URLs (configuration.js:1-9), so the
  model keeps this comparison exactly as written.
- **Type lists are rewritten only for the `http://` ids of the remap
  table.** The joined-profile test (lib.spec.js:257-288) names the
  properties by `https://` ids. Under the vocabulary's `http://` ids,
  `description` gets `[TextArea, TextArea]`, because `TextObject` is in its
  remap table (configuration.js:12-15). The test's `[TextArea, TextObject]`
  cannot come out of `mapPropertiesToClasses`: an `https://` id gets no
  remapping at all. The model follows the code
  (`JoinerExamples.DescriptionExample`).
- **Only the prefixed keys are read.** `normaliseEntity` reads
  `schema:domainIncludes` and `schema:rangeIncludes`. The unprefixed
  `domainIncludes` of the test at lib.spec.js:68-79 is not read. A node
  holding only that key is a property without a domain.
- **`applyMappings` rewrites input types only for renamed classes and their
  copies.** For those, the types are de-duplicated and sorted. Every other
  class keeps its type lists as they were (`Mappings.MappedUntouched`).

## Model

| member | source | states |
|---|---|---|
| Identifiers.StripPrefix | lib.js:276-280 | the result is `undefined` exactly when the id has no `:` |
| Identifiers.StripPrefixFragment | lib.js:277 | a URL with a `#` after its scheme is reduced to what follows its last `#` |
| Identifiers.StripPrefixUrl | lib.js:278 | any other URL is reduced to what follows its last `/` |
| Identifiers.StripPrefixPrefixed | lib.js:279 | a non-URL id with a `:` is reduced to the text after its first `:`, up to the next `:` or the end |
| Identifiers.StripPrefixHttpPath | lib.js:278 | `http:` followed by a path and a `/`-free name gives the name |
| Identifiers.StripPrefixHttpsPath | lib.js:278 | `https:` followed by a path and a `/`-free name gives the name |
| Identifiers.StripPrefixHttpsFragment | lib.js:277 | `https:` followed by anything, a `#` and a `#`-free name gives the name |
| Identifiers.StripPrefixCurie | lib.js:279 | a non-URL `prefix:local` with no further `:` gives `local` |
| Identifiers.Expand | lib.js:287-295 | an id without `:`, and an id whose prefix is `http` or `https`, is returned unchanged |
| Identifiers.ExpandPrefixed | lib.js:288-292 | `prefix:local` expands to the context's value for the prefix followed by `local`, or to `"undefined"` + `local` when the context lacks the prefix |
| Identifiers.ExpandKeepsUrls | lib.js:290 | `http:` and `https:` ids are never rewritten |
| IdentifierExamples.StripPrefixPrefixedExample | lib.spec.js:26-27 | `schema:Person` gives `Person` |
| IdentifierExamples.StripPrefixHttpExample | lib.spec.js:29-30 | `http://schema.org/Person` gives `Person` |
| IdentifierExamples.StripPrefixHttpsExample | lib.spec.js:32-33 | `https://schema.org/Person` gives `Person` |
| IdentifierExamples.StripPrefixFragmentExample | lib.spec.js:35-36 | `https://pcdm.org/models#Person` gives `Person` |
| IdentifierExamples.ExpandExample | lib.spec.js:113-177 | `pcdm:Collection` expands to `https://pcdm.org/models#Collection` under any context that maps `pcdm` as the test's context does, such as the test's five-prefix context |
| IdentifierExamples.ExpandUnknownPrefixExample | lib.js:291 | a prefix missing from the context expands to the text `undefined` followed by the local part |
| Entities.NormaliseEntity | lib.js:196-245 | errors exactly when the node lacks `@id`, when it is a class other than `schema:Thing` without `rdfs:subClassOf`, or when it is a property without domain or range; only `name`, `label`, `comment`, `domain` and `range` are written; `label`/`comment` take the `@value` of a tagged literal; `domain`/`range` are the stripped `@id`s of the references; `domain` changes only for a class with a parent or a property with a domain |
| Entities.Touched | lib.js:247-258 | the vocabulary graph after normalisation: every entity rewritten in place, the failing ones included, in order, each keeping its `@id` and `@type` |
| Entities.Survivors | lib.js:247-258 | the normalised forms of the well-formed entities, in order; no more entities than the input |
| EntityExamples.ClassWithoutParentExample | lib.spec.js:39-48 | `pcdm:Collection` typed as a class without `rdfs:subClassOf` fails with the missing-parent error |
| EntityExamples.ClassExample | lib.spec.js:50-66 | with the parent `https://schema.org/Thing` it normalises without error to name and label `Collection` and domain `[Thing]` |
| EntityExamples.PropertyWithoutDomainExample | lib.spec.js:68-79 | `pcdm:fileOf` without `schema:domainIncludes` fails with the missing-domain error |
| EntityExamples.PropertyExample | lib.spec.js:81-97 | with `schema:domainIncludes` File and `schema:rangeIncludes` `pcdm:Object` it normalises to name and label `fileOf`, domain `[File]` and range `[Object]` |
| Entities.SurvivorsAreNormalised | lib.js:247-258 | every kept entity has an `@id`, a `name` stripped from it, a `domain` when it is a class other than the root, and a `domain` and `range` when it is a property |
| Entities.NormaliseEntities | lib.js:247-270 | keeps the context; the kept graph is the normalised form of exactly the well-formed entities, in order; the input graph ends up with every entity rewritten in place, failing ones included |
| Entities.ExpandIdentifiers | lib.js:180-189 | fails exactly when some entity lacks `@id`; otherwise every `@id` is replaced by its expansion, and order, length, context and all other fields are kept |
| Extraction.ExtractClasses | lib.js:119-133 | returns exactly the entities typed `rdfs:Class`, in graph order |
| Extraction.ExtractProperties | lib.js:140-154 | returns exactly the entities typed `rdf:Property`, in graph order |
| Extraction.GroupOf | lib.js:163-165 | only an entity with a single type that is neither class nor property is grouped |
| Extraction.Groups | lib.js:161-172 | the enumeration table: each grouped entity appended under its stripped type name |
| Extraction.GroupsKeys | lib.js:161-172 | the keys are exactly the stripped type names of the grouped entities |
| Extraction.GroupsValues | lib.js:166-167 | each group holds exactly the entities with that type name, in graph order |
| Extraction.ExtractOtherDefinitions | lib.js:161-172 | fails exactly when some entity has no `@type`; otherwise returns the groups |
| Extraction.GetRootDataset | lib.js:100-112 | no descriptor is an error; a found entity is in the graph |
| Extraction.GetRootDatasetFinds | lib.js:102-108 | a descriptor without `about` is an error; an `about` naming no entity gives `undefined`; otherwise the result is the first entity with that id |
| Definitions.BuildDefinitions | lib.js:44-61 | the loop builds exactly `Table` of the classes |
| Definitions.Table | lib.js:44-61 | the label-keyed table: each label holds the entry of its first class, with id, name, help and parents, and no inputs |
| Definitions.TableKeys | lib.js:51-52 | the keys are exactly the labels of the classes, with `"undefined"` for a class without one |
| Definitions.TableFirstWriterWins | lib.js:51-59 | each label's entry is built from the first class with that label |
| Definitions.TableExtends | lib.js:45-51 | appending extension classes never replaces or removes an existing entry |
| Hierarchy.HierarchyMembers | lib.js:305-307 | a hierarchy has no repeats and no empty names; it holds exactly the class and the non-empty names its parent walk yields |
| Hierarchy.Ancestors | lib.js:311-321 | `getParent` for one class: its ancestors, depth first; the only failure is `CyclicHierarchy` |
| Hierarchy.AncestorsOf | lib.js:311-321 | the walk over a list of parents, each followed by its own ancestors; the only failure is `CyclicHierarchy` |
| Hierarchy.ClassHierarchy | lib.js:305-307 | the class followed by its ancestors, with `undefined` and empty names dropped and each repeat kept at its last position; the only failure is `CyclicHierarchy` |
| Hierarchy.HierarchyKeepsLast | lib.js:305-307 | the hierarchy is the class followed by its ancestors, compacted, with each repeated name kept at its last position |
| Hierarchy.HierarchySelfFirst | lib.js:306 | a class with a non-empty name comes first in its own hierarchy |
| Hierarchy.HierarchyOfLeaf | lib.js:312 | a name with no table entry, or whose entry has no `subClassOf`, has the hierarchy `[name]` |
| Hierarchy.HierarchyOfEmptyParents | lib.js:312-320 | a class whose `subClassOf` is an empty list (truthy in JS, mapped to nothing) also has the hierarchy `[class]` |
| Hierarchy.HierarchyUnfolds | lib.js:311-321 | when the class's hierarchy is defined, so is every parent's; every truthy parent and its hierarchy are in the class's hierarchy; nothing else is |
| Hierarchy.RankedHierarchy | lib.js:311-321 | when parents always rank below their children, every hierarchy is defined |
| Hierarchy.SelfParentFails | lib.js:311-321 | a class that lists itself as a parent has no hierarchy |
| Hierarchy.CycleFailsFrom | lib.js:311-321 | a parent chain that returns to a class already on it makes the walk fail |
| Hierarchy.FailureWalk | lib.js:311-321 | a failing walk yields a parent chain from the class to a class already on the chain or on the path |
| Hierarchy.HierarchyErrorIsCycle | lib.js:311-321 | a class's hierarchy fails exactly when a chain of parents from it runs into a cycle, and the error is then `CyclicHierarchy`; `RankedHierarchy` is the special case of ranked tables, which have no cycles |
| Hierarchy.MapClassHierarchies | lib.js:303-322 | fails exactly when some class's hierarchy loops; otherwise keeps the keys and gives every class its hierarchy and nothing else |
| Joiner.RemapType | lib.js:349-353 | one type through the property's remap table |
| Joiner.RemapTypes | lib.js:349-353 | the range with each type remapped, one for one |
| Joiner.RemapTypesChanges | lib.js:349-353 | remapping keeps the length; a type listed in the property's table becomes the table's value; an unlisted type is kept; a changed type is `TextArea` or `Geometry`; a property without a table keeps its types |
| Joiner.Generalise | lib.js:356-358 | the list grows by one entry per `Thing`; it holds the original types, plus `ANY` exactly when `Thing` occurs |
| Joiner.ThingFollowedByAny | lib.js:356-358 | every `Thing` in the result is immediately followed by `ANY` |
| Joiner.GeneraliseAppend | lib.js:356-358 | the widening works entry by entry, so the other types keep their order |
| Joiner.GeneraliseWithoutThing | lib.js:356-358 | a list without `Thing` is unchanged |
| Joiner.WithExtraClasses | lib.js:361-365 | for a property with extra classes, the result is sorted and is a permutation of the types plus the extras; otherwise it is unchanged |
| JoinerExamples.HasPartExtra | configuration.js:58-66 | `hasPart` gains `File`, `Dataset`, `RepositoryCollection`, `RepositoryObject` and `ANY`, which are sorted in with its range |
| JoinerExamples.HasPartExample | lib.spec.js:257-272 | `hasPart` with range `[CreativeWork]` gets the types `[ANY, CreativeWork, Dataset, File, RepositoryCollection, RepositoryObject]`, in that order |
| JoinerExamples.TemporalExample | lib.spec.js:274-280 | `temporal` with range `[Text, DateTime]` gets `[TextArea, DateTime]` |
| JoinerExamples.DescriptionExample | lib.spec.js:282-288 | `description` with range `[Text, TextObject]` gets `[TextArea, TextArea]` under its `http://` id; the test expects `[TextArea, TextObject]` |
| Joiner.EnumValues | lib.js:367-373 | none when no type names an enumeration; otherwise the member ids of the last type that does |
| Joiner.InputFor | lib.js:336-377 | no input when the property has no range; otherwise id, name, label and help come from the property, `multiple` is false only for `https://schema.org/name`, and `SelectURL` is appended exactly when there are enumeration values |
| Joiner.BuildInput | lib.js:336-377 | builds that input |
| Joiner.JoinDomainCounts | lib.js:334-379 | each class gets the input once per truthy domain entry processed, and the processing stops at the first truthy entry that names no class |
| Joiner.ProcessedAll | lib.js:334-379 | when every truthy domain entry names a class, the whole domain list is processed |
| Joiner.JoinDomain | lib.js:334-379 | the domain loop: the input is pushed into each class named, stopping at the first entry that names no class; no key is added |
| Joiner.JoinProperty | lib.js:330-389 | one property joined into the table, with the try/catch; no key is added |
| Joiner.JoinAll | lib.js:330-389 | all properties joined in order; no key is added |
| Joiner.JoinAllKeeps | lib.js:330-389 | joining properties only appends inputs and changes no other field |
| Joiner.JoinPropertyInto | lib.js:330-389 | the body of the property loop, with the try/catch |
| Joiner.MapPropertiesToClasses | lib.js:329-397 | keeps the keys; each class's inputs are the joined inputs ordered by name |
| Joiner.OrderInputs | lib.js:393-395 | orders every class's inputs by name |
| Sorting.SortBy | lib.js:364 | a sorted permutation |
| Sorting.SortByStable | lib.js:394 | inputs with the same name keep their relative order |
| Mappings.RenameType | lib.js:421-424 | a renamed class name becomes its new name; others, and `undefined`, are kept; no result is itself renamed |
| Mappings.RenameTypes | lib.js:420-427 | the rewritten list is sorted, has no repeats, holds exactly the renamed types and names no renamed class |
| Mappings.RenameTypesIdempotent | lib.js:420-427 | rewriting twice is rewriting once |
| Mappings.RenameTablesInvertible | configuration.js:48-55 | the rename table is injective, its new names are not renamed, and `RenameSources` is its inverse |
| Mappings.MapClass | lib.js:405-439 | one iteration of the rename loop: the table after it equals `Partial` with that class added to the done set |
| Mappings.Mapped | lib.js:404-441 | the renamed table: each renamed class present is copied to its new name, and the types of both are rewritten; no key is lost |
| Mappings.MapClasses | lib.js:405-440 | running the loop body over the starting keys, in any order, gives the renamed table |
| Mappings.ApplyMappings | lib.js:404-441 | the result is the renamed table |
| Mappings.MappedKeys | lib.js:410 | no class disappears, and every renamed class present adds its new name |
| Mappings.MappedRenamed | lib.js:409-440 | the old entry stays, with its input types rewritten; the copy is named after the new name, keeps id, help and parents, shares the rewritten inputs, and has the old name replaced by the new one in its hierarchy |
| Mappings.MappedOverwrites | lib.js:410 | an existing class under a new name is replaced by the copy |
| Mappings.MappedUntouched | lib.js:406-407 | a class neither renamed nor a target is left exactly as it was |
| Mappings.MappedKeepsFields | lib.js:404-441 | a class that is not a rename target keeps every field except its inputs, and keeps its input count |
| Mappings.MappedTypesRenamed | lib.js:420-439 | no input of a renamed class or of its copy names a renamed class |
| Mappings.MappedIdempotent | lib.js:404-441 | applying the renames twice equals applying them once |
| Profile.ExtensionParts | lib.js:33-40 | an extension fails exactly when it is not `.DS_Store` and its crate has no root dataset, with `NoRootDataset`; `.DS_Store` gives nothing; otherwise it gives classes and properties only, because normalisation has already dropped the entities without `@id` |
| Profile.AllExtensions | lib.js:32-41 | the extension loop's classes and properties, in directory order; a failure is `NoRootDataset` |
| Profile.AllExtensionsFail | lib.js:32-41 | any failing extension ends the loop with an error |
| Profile.AllExtensionsErr | lib.js:32-41 | the loop fails exactly when some extension other than `.DS_Store` has no root dataset |
| Profile.SchemaParts | lib.js:20-26 | the vocabulary stage on the expanded original graph: it fails only for an entity without `@id` or `@type`; the classes it gives are classes and the properties are properties |
| Profile.Assemble | lib.js:44-74 | the stages after loading: table, hierarchies, join, renames, and removal of `undefined`; a result has no `undefined` entry |
| Profile.ReadExtension | lib.js:83-93 | runs the loop body for one extension |
| Profile.ReadExtensions | lib.js:32-41 | runs the extension loop |
| Profile.ReadSchema | lib.js:20-26 | runs the vocabulary stage |
| Profile.AssembleDefinitions | lib.js:44-74 | runs the stages after loading |
| Profile.Build | lib.js:13-76 | a successful run has no `undefined` entry |
| Profile.CreateDescriboMainProfile | lib.js:13-76 | the run's outcome is the profile `Build` describes |
| Profile.AssembleKeys | lib.js:44-74 | the profile's keys are the class labels plus the new names of renamed classes, minus `undefined` |
| Profile.AssembleKeepsClass | lib.js:51-74 | a class that is not a rename target keeps its id, name, help and parents from the table, carries its hierarchy, and differs from its table entry only in its inputs |
| Profile.JoinedKeepsClass | lib.js:63-68 | setting the hierarchies and joining the properties change only a class's hierarchy and inputs |
| Profile.AssembleSortsInputs | lib.js:392-395 | an untouched class's inputs are a name-ordered permutation of the inputs its properties gave it |
| Profile.BuildBaseClassesWin | lib.js:45-51 | a vocabulary class's id, name and help survive any extension class with the same label |
| Profile.BuildMissingDescriptor | lib.js:91 | an extension crate without a descriptor fails the run, with that error when the vocabulary loads |
| Configuration.RenamesWellFormed | configuration.js:48-55 | the four renames: their sources and targets are disjoint, and each target is distinct and non-empty |
| Configuration.RemapTargets | configuration.js:11-44 | every remap entry yields `TextArea` or `Geometry` |
| Configuration.RemapKeys | configuration.js:11-44 | the remap table covers exactly the ten listed properties |
| Configuration.RemapKeysAreHttp | configuration.js:1-44 | every property of the remap table is named by an `http://schema.org/` id |
| Configuration.AddClassesToPropertyOnlyHasPart | configuration.js:58-66 | only `hasPart` has extra classes |

## Left out

- Reading files: the vocabulary, the extensions directory, `pathExists` and `readJSON` (lib.js:15-20, 32, 84-88). The loaded data are parameters. A missing or unreadable file is not modelled.
- Console warnings (lib.js:123-128, 144-149, 259-266), including the `process.exit` that cannot be reached.
- The catch block of `mapPropertiesToClasses` (lib.js:381-388). It only logs. It could itself throw when a property has no `comment`; that case is not modelled.
- `write-types.js`, which serialises the profile. It is not part of this model.
- Definitions.BuildDefinitions: the provisional `hierarchy: c.domain` (lib.js:58) is held as an empty list. `mapClassHierarchies` overwrites it before anything reads it.
- Keys that JS objects inherit from their prototype (`constructor`, `__proto__`) are treated as ordinary missing keys.
- Strings are sequences of Unicode code points, and the model's string order compares code points. `sort` compares UTF-16 code units. The two orders differ only between a character outside the Basic Multilingual Plane and one in U+E000 to U+FFFF: JS puts the first before the second, and the model puts it after.
- The crate's `@context` is a map from prefix to base URI. A crate without `@context`, where `context[prefix]` throws (lib.js:291), cannot be represented. An object-valued prefix entry cannot be represented either. An array or URL-string `@context`, where every prefix reads as `undefined`, is covered only as the empty map.
- In `stripPrefix` the regular expressions' `.` does not match line breaks; the model does not treat ids containing line breaks specially.
- Mappings.ApplyMappings: the loop visits the starting keys in an unspecified order. `Object.keys` order is not modelled; the lemmas show the result does not depend on it.
