# Hesperides property valuation context, in Dafny

This project models the property valuation context of Hesperides, the
component that values the properties of a deployed module's templates.

For a platform, and optionally one of its deployed modules and an instance
name, the context gathers four property lists once:

- the platform's **global** properties, unfiltered;
- the **instance** properties: those of the first instance whose name equals the requested one ignoring case, kept only when the module's instance model declares their name;
- the **predefined** properties: `hesperides.application.name`, `hesperides.application.version` and `hesperides.platform.name`; with a module, also `hesperides.module.name`, `hesperides.module.version`, `hesperides.module.path.full`, one `hesperides.module.path.<k>` per logical group of the module path, and `hesperides.instance.name`;
- the **properties without model** handed in by the caller.

`completeWithContextualProperties` merges these lists into a property
sequence in a fixed order: instance, then predefined, then (optionally)
global, each overriding what is there. Finally, and optionally, the simple
properties without model fill only the names still undefined.
`removePredefinedProperties` strips the predefined names back out.

Modules:

- `Optional`: the `Option` type used for Java's nullable references.
- `JavaStrings`: the `java.lang.String` behaviour the context relies on:
  - `split("#")` with Java's dropping of trailing empty pieces;
  - `replace('#', '/')`;
  - `equalsIgnoreCase`;
  - the decimal rendering of an `int` in a concatenation.
- `PropertyViews`: the read-only views (properties, instances, deployed modules, platforms) and the filter on simple properties.
- `VisitorsSequence`: the ordered, name-keyed property sequence. Its three operations are override-or-append, add-if-absent and remove-by-name-set. The sequence class itself is outside this model, so each operation is given a definition and its behaviour is proved as lookup laws.
- `ValuationContext`: the context itself. It is an immutable value (`@Value`). Its constructors are methods because they call the step-by-step builder `GetPredefinedProperties`. `GetPathLogicalGroups` keeps the source's indexed loop.

A name's value in a sequence is `Lookup`: the first entry carrying that
name. Every merge law below is stated through it.

## Model

| member | source | states |
|---|---|---|
| JavaStrings.SplitAll | core/application/src/main/java/org/hesperides/core/application/platforms/properties/PropertyValuationContext.java:87 | the raw split has at least one piece; its pieces are separator-free, join back to the string, number one exactly when the separator is absent, and are recovered from any join (SplitAllSepFree, SplitAllJoinBack, SplitAllCount, SplitAllJoin) |
| JavaStrings.JavaSplit | core/application/src/main/java/org/hesperides/core/application/platforms/properties/PropertyValuationContext.java:87 | a string without `#` is returned whole; otherwise the result is the raw split minus its run of trailing empty pieces, and its last piece is not empty |
| JavaStrings.DropTrailingEmpty | core/application/src/main/java/org/hesperides/core/application/platforms/properties/PropertyValuationContext.java:87 | the kept pieces are a prefix, the last kept piece is non-empty, and every dropped piece is empty |
| JavaStrings.SplitAllSepFree | core/application/src/main/java/org/hesperides/core/application/platforms/properties/PropertyValuationContext.java:87 | no piece of the raw split contains the separator |
| JavaStrings.SplitAllJoinBack | core/application/src/main/java/org/hesperides/core/application/platforms/properties/PropertyValuationContext.java:87 | joining the raw split with the separator gives the string back |
| JavaStrings.SplitAllCount | core/application/src/main/java/org/hesperides/core/application/platforms/properties/PropertyValuationContext.java:87 | the raw split has a single piece exactly when the separator does not occur |
| JavaStrings.SplitAllJoin | core/application/src/main/java/org/hesperides/core/application/platforms/properties/PropertyValuationContext.java:87 | splitting a join of separator-free pieces gives the pieces back |
| JavaStrings.JavaSplitJoin | core/application/src/main/java/org/hesperides/core/application/platforms/properties/PropertyValuationContext.java:87 | for one or more separator-free pieces whose last one is non-empty (or a single piece, Java's whole-string case), `split` undoes the join |
| JavaStrings.ReplaceChar | core/application/src/main/java/org/hesperides/core/application/platforms/properties/PropertyValuationContext.java:78 | same length; each character equal to `from` becomes `to` and every other character is kept |
| JavaStrings.ReplaceCharJoin | core/application/src/main/java/org/hesperides/core/application/platforms/properties/PropertyValuationContext.java:78 | replacing the separator of a join is the join with the new separator |
| JavaStrings.ToLowerAsciiString | core/application/src/main/java/org/hesperides/core/application/platforms/properties/PropertyValuationContext.java:59 | same length, each character folded to lower case |
| JavaStrings.EqualsIgnoreCase | core/application/src/main/java/org/hesperides/core/application/platforms/properties/PropertyValuationContext.java:59 | two strings are equal ignoring case exactly when their lower-cased forms are equal |
| JavaStrings.EqualsIgnoreCaseEquivalence | core/application/src/main/java/org/hesperides/core/application/platforms/properties/PropertyValuationContext.java:59 | case-insensitive equality is reflexive, symmetric and transitive |
| JavaStrings.NatToString | core/application/src/main/java/org/hesperides/core/application/platforms/properties/PropertyValuationContext.java:89 | at least one character, all of them decimal digits, and a single digit exactly below 10 |
| JavaStrings.NatToStringValue | core/application/src/main/java/org/hesperides/core/application/platforms/properties/PropertyValuationContext.java:89 | the digits spell the number in decimal: their decimal value is the number |
| JavaStrings.NatToStringInjective | core/application/src/main/java/org/hesperides/core/application/platforms/properties/PropertyValuationContext.java:89 | distinct indices give distinct renderings, so the path names are distinct |
| PropertyViews.SimpleOnly | core/application/src/main/java/org/hesperides/core/application/platforms/properties/PropertyValuationContext.java:50-52 | the filter on `ValuedPropertyView` never lengthens the list |
| PropertyViews.SimpleOnlyMembers | core/application/src/main/java/org/hesperides/core/application/platforms/properties/PropertyValuationContext.java:50-52 | a property survives the filter if and only if it is in the list and simple |
| PropertyViews.SimpleOnlyConcat | core/application/src/main/java/org/hesperides/core/application/platforms/properties/PropertyValuationContext.java:50-52 | the filter keeps relative order: it distributes over concatenation |
| VisitorsSequence.OverrideWith | core/application/src/main/java/org/hesperides/core/application/platforms/properties/PropertyValuationContext.java:44-47 | one override adds exactly the overriding name to the sequence's names |
| VisitorsSequence.OverrideWithLookup | core/application/src/main/java/org/hesperides/core/application/platforms/properties/PropertyValuationContext.java:44-47 | after an override the name holds the new value, and every other name holds what it held |
| VisitorsSequence.OverrideWithShape | core/application/src/main/java/org/hesperides/core/application/platforms/properties/PropertyValuationContext.java:44-47 | an override replaces in place the first entry of a present name, or appends an absent name at the end |
| VisitorsSequence.OverrideWithUnique | core/application/src/main/java/org/hesperides/core/application/platforms/properties/PropertyValuationContext.java:44-47 | overriding keeps names unique |
| VisitorsSequence.AddOverriding | core/application/src/main/java/org/hesperides/core/application/platforms/properties/PropertyValuationContext.java:44-47 | the names after a scope is applied are the old names plus the scope's names |
| VisitorsSequence.AddOverridingLookup | core/application/src/main/java/org/hesperides/core/application/platforms/properties/PropertyValuationContext.java:44-47 | a name of the scope holds the last value the scope gives it; any other name keeps its value |
| VisitorsSequence.AddOverridingUnique | core/application/src/main/java/org/hesperides/core/application/platforms/properties/PropertyValuationContext.java:44-47 | applying a scope keeps names unique |
| VisitorsSequence.AddOverridingPresent | core/application/src/main/java/org/hesperides/core/application/platforms/properties/PropertyValuationContext.java:44-47 | when every name of the scope is present, applying it only patches values in place |
| VisitorsSequence.PatchedStep | core/application/src/main/java/org/hesperides/core/application/platforms/properties/PropertyValuationContext.java:44-47 | one override of a present name, followed by patching with the rest of the scope, equals patching with the whole scope |
| VisitorsSequence.PatchedSettled | core/application/src/main/java/org/hesperides/core/application/platforms/properties/PropertyValuationContext.java:44-47 | a sequence that already holds the winning values of a scope is left unchanged by patching |
| VisitorsSequence.AddOverridingIdempotent | core/application/src/main/java/org/hesperides/core/application/platforms/properties/PropertyValuationContext.java:44-47 | applying the same scope twice yields the same sequence as applying it once |
| VisitorsSequence.AddIfAbsent | core/application/src/main/java/org/hesperides/core/application/platforms/properties/PropertyValuationContext.java:50-52 | adding one entry if absent adds exactly its name to the names |
| VisitorsSequence.AddIfUndefined | core/application/src/main/java/org/hesperides/core/application/platforms/properties/PropertyValuationContext.java:50-52 | after filling, the names are the old names plus those of the list |
| VisitorsSequence.AddIfUndefinedLookup | core/application/src/main/java/org/hesperides/core/application/platforms/properties/PropertyValuationContext.java:50-52 | filling never overwrites: a defined name keeps its value, and an undefined one takes the first value the list gives it |
| VisitorsSequence.AddIfUndefinedUnique | core/application/src/main/java/org/hesperides/core/application/platforms/properties/PropertyValuationContext.java:50-52 | filling keeps names unique |
| VisitorsSequence.RemoveByNames | core/application/src/main/java/org/hesperides/core/application/platforms/properties/PropertyValuationContext.java:95 | an entry is kept if and only if it was there and its name is not in the set |
| VisitorsSequence.RemoveByNamesLookup | core/application/src/main/java/org/hesperides/core/application/platforms/properties/PropertyValuationContext.java:95 | a removed name is absent afterwards; every other name keeps its value |
| VisitorsSequence.RemoveByNamesAbsent | core/application/src/main/java/org/hesperides/core/application/platforms/properties/PropertyValuationContext.java:95 | removing names the sequence does not carry changes nothing |
| VisitorsSequence.RemoveByNamesAppend | core/application/src/main/java/org/hesperides/core/application/platforms/properties/PropertyValuationContext.java:95 | removal distributes over appending a kept entry |
| VisitorsSequence.RemoveOverrideWith | core/application/src/main/java/org/hesperides/core/application/platforms/properties/PropertyValuationContext.java:95 | removal commutes with overriding a kept name, and cancels overriding a removed one |
| VisitorsSequence.RemoveAddOverriding | core/application/src/main/java/org/hesperides/core/application/platforms/properties/PropertyValuationContext.java:95 | removal commutes with a scope whose names are all kept, and cancels a scope whose names are all removed |
| VisitorsSequence.RemoveAddIfUndefined | core/application/src/main/java/org/hesperides/core/application/platforms/properties/PropertyValuationContext.java:95 | removal commutes with filling from a list whose names are all kept |
| ValuationContext.FirstMatchingInstance | core/application/src/main/java/org/hesperides/core/application/platforms/properties/PropertyValuationContext.java:58-60 | the result is the first instance whose name equals the requested one ignoring case; none means no instance matches, and a null name matches nothing |
| ValuationContext.NameMatches | core/application/src/main/java/org/hesperides/core/application/platforms/properties/PropertyValuationContext.java:59 | a null name matches no instance; otherwise an instance matches exactly when both names are equal once lower-cased |
| ValuationContext.FilterByModel | core/application/src/main/java/org/hesperides/core/application/platforms/properties/PropertyValuationContext.java:63-66 | every kept property has a name in the instance model |
| ValuationContext.FilterByModelMembers | core/application/src/main/java/org/hesperides/core/application/platforms/properties/PropertyValuationContext.java:63-66 | a property is kept if and only if it was there and the model declares its name |
| ValuationContext.FilterByModelConcat | core/application/src/main/java/org/hesperides/core/application/platforms/properties/PropertyValuationContext.java:63-66 | kept properties stay in their relative order |
| ValuationContext.InstanceProperties | core/application/src/main/java/org/hesperides/core/application/platforms/properties/PropertyValuationContext.java:57-67 | every result name is in the instance model; the result is empty when no instance matches or the name is null |
| ValuationContext.InstancePropertiesFromFirstMatch | core/application/src/main/java/org/hesperides/core/application/platforms/properties/PropertyValuationContext.java:58-62 | the properties come from the first matching instance only, even when a later instance has the same name |
| ValuationContext.NodeOneInstanceProperties | core/application/src/main/java/org/hesperides/core/application/platforms/properties/PropertyValuationContext.java:57-67 | instance "Node-1" is found under "node-1"; `timeout`, declared in the model, is kept and `debug` is dropped; a null name finds nothing |
| ValuationContext.NodeOneFound | core/application/src/main/java/org/hesperides/core/application/platforms/properties/PropertyValuationContext.java:58-60 | "node-1" finds the instance named "Node-1" at the first position |
| ValuationContext.NodeOneFiltered | core/application/src/main/java/org/hesperides/core/application/platforms/properties/PropertyValuationContext.java:63-66 | the model ["timeout"] keeps `timeout=30` and drops `debug=true` |
| ValuationContext.GetPathLogicalGroups | core/application/src/main/java/org/hesperides/core/application/platforms/properties/PropertyValuationContext.java:85-92 | one entry per split group but the first; entry `k` is named `hesperides.module.path.k` and holds group `k + 1` |
| ValuationContext.PathKeyValue | core/application/src/main/java/org/hesperides/core/application/platforms/properties/PropertyValuationContext.java:89 | a path name is `hesperides.module.path.` followed by digits whose decimal value is the path index |
| ValuationContext.PathKeyLiterals | core/application/src/main/java/org/hesperides/core/application/platforms/properties/PropertyValuationContext.java:89 | the first path names are spelled `hesperides.module.path.0`, `.1` and `.2` |
| ValuationContext.GetPredefinedProperties | core/application/src/main/java/org/hesperides/core/application/platforms/properties/PropertyValuationContext.java:69-83 | the list is, entry by entry: the three platform entries; then, with a module, name, version, full path with `/` for `#`, the path entries, and the instance name (`""` when null) |
| ValuationContext.ModuleEntriesOfParts | core/application/src/main/java/org/hesperides/core/application/platforms/properties/PropertyValuationContext.java:75-80 | the six leading entries, then the path entries, then the instance name form the module part of the list |
| ValuationContext.PredefinedKeys | core/application/src/main/java/org/hesperides/core/application/platforms/properties/PropertyValuationContext.java:69-83 | the list has 3 entries without a module and 7 plus the path entries with one, and each position carries its reserved name |
| ValuationContext.PathKeyInjective | core/application/src/main/java/org/hesperides/core/application/platforms/properties/PropertyValuationContext.java:89 | distinct path indices give distinct names |
| ValuationContext.KeyAtInjective | core/application/src/main/java/org/hesperides/core/application/platforms/properties/PropertyValuationContext.java:71-80 | no two positions of a predefined list carry the same reserved name |
| ValuationContext.KeyedUnique | core/application/src/main/java/org/hesperides/core/application/platforms/properties/PropertyValuationContext.java:71-80 | a list with the reserved names in their positions has unique names |
| ValuationContext.KeyedNames | core/application/src/main/java/org/hesperides/core/application/platforms/properties/PropertyValuationContext.java:71-80 | such a list carries exactly the platform names, or all seven fixed names plus one per path entry |
| ValuationContext.KeyedLookup | core/application/src/main/java/org/hesperides/core/application/platforms/properties/PropertyValuationContext.java:71-80 | in such a list, looking up a position's name finds that position's entry |
| ValuationContext.KeyedFullPathLookup | core/application/src/main/java/org/hesperides/core/application/platforms/properties/PropertyValuationContext.java:78 | in a full positional list, looking up the full-path name finds position 5 |
| ValuationContext.KeyedInstanceNameLookup | core/application/src/main/java/org/hesperides/core/application/platforms/properties/PropertyValuationContext.java:80 | in a full positional list, looking up the instance name finds the last position |
| ValuationContext.KeyAtNotNextPathKey | core/application/src/main/java/org/hesperides/core/application/platforms/properties/PropertyValuationContext.java:88-89 | no position carries the path name one past the last group |
| ValuationContext.KeyedPathKeyAbsent | core/application/src/main/java/org/hesperides/core/application/platforms/properties/PropertyValuationContext.java:88-89 | a full list has no path entry numbered as the group count |
| ValuationContext.PredefinedNamesExact | core/application/src/main/java/org/hesperides/core/application/platforms/properties/PropertyValuationContext.java:69-83 | the list's names are exactly the reserved names for the module (or for none), each carried once |
| ValuationContext.PredefinedLookup | core/application/src/main/java/org/hesperides/core/application/platforms/properties/PropertyValuationContext.java:77-80 | the instance name is always present (`""` for a null name), and the full path holds the path with `/` for `#` |
| ValuationContext.PredefinedPathLookup | core/application/src/main/java/org/hesperides/core/application/platforms/properties/PropertyValuationContext.java:85-91 | path entry `k` holds group `k + 1`, and there is no path entry past the last group |
| ValuationContext.PathOfGroups | core/application/src/main/java/org/hesperides/core/application/platforms/properties/PropertyValuationContext.java:77-91 | a path of `#`-prefixed non-empty groups yields one entry per group, numbered from 0 in order, and its full form is the `/`-join |
| ValuationContext.SplitEmptyPath | core/application/src/main/java/org/hesperides/core/application/platforms/properties/PropertyValuationContext.java:87-88 | an empty path is one empty group, so it has no path entry |
| ValuationContext.SplitLoneSeparator | core/application/src/main/java/org/hesperides/core/application/platforms/properties/PropertyValuationContext.java:87 | a lone `#` splits into no group at all |
| ValuationContext.SplitUnopenedPath | core/application/src/main/java/org/hesperides/core/application/platforms/properties/PropertyValuationContext.java:87-88 | "core#billing" splits into "core" and "billing", so the first group is lost |
| ValuationContext.SplitTrailingEmpty | core/application/src/main/java/org/hesperides/core/application/platforms/properties/PropertyValuationContext.java:87 | trailing empty groups are dropped |
| ValuationContext.SplitInnerEmpty | core/application/src/main/java/org/hesperides/core/application/platforms/properties/PropertyValuationContext.java:87 | inner empty groups are kept and numbered |
| ValuationContext.CoreBillingJoin | core/application/src/main/java/org/hesperides/core/application/platforms/properties/PropertyValuationContext.java:77-78 | "#core#billing" is the `#`-join of "", "core" and "billing", and "/core/billing" is their `/`-join |
| ValuationContext.CoreBillingJoinWith | core/application/src/main/java/org/hesperides/core/application/platforms/properties/PropertyValuationContext.java:77-78 | "", "core" and "billing" joined by any separator read separator, "core", separator, "billing" |
| ValuationContext.CoreBillingPath | core/application/src/main/java/org/hesperides/core/application/platforms/properties/PropertyValuationContext.java:77-91 | "#core#billing" splits into "", "core" and "billing", and reads "/core/billing" in full |
| ValuationContext.CoreBillingPredefined | core/application/src/main/java/org/hesperides/core/application/platforms/properties/PropertyValuationContext.java:69-91 | for module path "#core#billing" and instance "node-1": `hesperides.module.path.0` is "core", `hesperides.module.path.1` is "billing", there is no `hesperides.module.path.2`, the full path is "/core/billing", and the instance name is "node-1" |
| ValuationContext.NewForDeployedModule | core/application/src/main/java/org/hesperides/core/application/platforms/properties/PropertyValuationContext.java:26-31 | the global properties are the platform's, unfiltered; the instance properties are filtered by the instance model; the predefined list is the module's; the list without model is stored unchanged |
| ValuationContext.NewForPlatform | core/application/src/main/java/org/hesperides/core/application/platforms/properties/PropertyValuationContext.java:33-38 | no instance properties; exactly the three platform predefined entries, in order; global and without-model lists stored unchanged |
| ValuationContext.CompleteWithContextualProperties | core/application/src/main/java/org/hesperides/core/application/platforms/properties/PropertyValuationContext.java:42-55 | the merged names are the sequence's names plus those of each scope applied, the global and without-model ones only when asked for |
| ValuationContext.CompletePrecedence | core/application/src/main/java/org/hesperides/core/application/platforms/properties/PropertyValuationContext.java:42-55 | precedence per name: global (if included) over predefined over instance over the sequence's own value; a property without model only fills a name nobody defines |
| ValuationContext.CompleteKeepsUniqueNames | core/application/src/main/java/org/hesperides/core/application/platforms/properties/PropertyValuationContext.java:42-55 | completing a sequence with unique names keeps them unique |
| ValuationContext.InstanceOutsideModelIgnored | core/application/src/main/java/org/hesperides/core/application/platforms/properties/PropertyValuationContext.java:63-66 | an instance property whose name is outside the model has no effect: its name is valued as with no instance properties at all |
| ValuationContext.RemovePredefinedProperties | core/application/src/main/java/org/hesperides/core/application/platforms/properties/PropertyValuationContext.java:94-96 | an entry is kept if and only if its name is not one of this context's predefined names |
| ValuationContext.RemoveUndoesPredefined | core/application/src/main/java/org/hesperides/core/application/platforms/properties/PropertyValuationContext.java:94-96 | when no other list uses a predefined name, removing the predefined names from a completed sequence gives the sequence completed without them |

## Left out

- `PropertyVisitorsSequence` itself is not part of this model. `VisitorsSequence` gives its three operations a definition with the behaviour the context relies on. An override of a name held by an iterable entry replaces that entry; this is an assumption about `PropertyVisitorsSequence`.
- `equalsIgnoreCase` is modelled with ASCII case folding only. Unicode case mapping is left out.
- The platform's `isProduction`, `versionId` and list of deployed modules are not read by the context; `Platform` does not carry them.
- Lombok's generated accessors, `equals` and `hashCode` are left out. The context is a plain datatype.
- Null references: a null instance name is `None`. The module-scoped constructor takes a deployed module, because a null one would throw in the source before any property is computed. A null `modulePath`, which throws at `modulePath.replace`, and null application, platform, module names or versions, which the source stores as values, are excluded by the model's types. Null names inside instances or properties are not modelled.
- The `int` loop index of `getPathLogicalGroups` is unbounded here. A module path with more than 2^31 groups is out of reach.
- The files `ElasticSearchClient`, `HesperidesStatsResource` and `PlatformIO` are not part of this model. They are I/O plumbing and DTOs.
- `RemovePredefinedProperties` strips only this context's own predefined names, not every `hesperides.` name: a `hesperides.module.path.5` entry survives when the module path has fewer groups. `RemoveUndoesPredefined` states the round trip for exactly those names.
- `InstanceOutsideModelIgnored`: the instance-model filter only stops an instance value from overriding; a base entry of that name stays in the completed sequence.
