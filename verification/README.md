# JBoss provisioning core, modelled in Dafny

This project models the core of the JBoss provisioning manager (`pm`). That core is the logic that lays out feature-packs, resolves features and turns configurations into WildFly CLI operations. It also covers the value and builder classes it passes around and the writers that turn a provisioned state or a configuration into an XML element tree. One module stands for each source file:

- `ProvisioningTask` (provisioning_task.dfy) lays feature-packs out depth first and registers each GA once. A GA seen again in another version fails with the version conflict. Per-GAV config builders are merged and enforced in insertion-ordered maps. Plugin coordinates are collected without duplicates. Plugins run until the first failure. `ProvisioningScenario` replays one dependency-override layout step by step.
- `ResolvedFeature` resolves a feature's parameters and maps its references onto the ids of the features they target.
- `WfParsing`, `WfListFacts`, `WfOps` and `WfHandler` model `WfProvisionedConfigHandler`:
  - the comma-list parsers of its annotations;
  - the CLI command line of a managed operation;
  - `prepare`;
  - `nextSpec`, with its reusable, growable array of operation objects.
- `FeatureBuilder` models `ProvisionedFeatureBuilder`. `PackageDepsSpec`, `FpDescription`, `ConfigRef` and `PackageScripts` model the value classes of the same names. `CompositeFormat` models `CompositeParsingFormat`'s longest-name match. `Errors` models the exception messages.
- `XmlTree` models `BaseXmlWriter`'s `addElement` and `addAttribute` over a document of element nodes. `StateXml` and `ConfigXml` model the trees `ProvisionedStateXmlWriter` and `ConfigXmlWriter` build. A written provisioned state reads back whole. For a configuration, the name and model attributes and the properties read back; the feature-group body and the packages element are placed as given, but are not read back.
- `Base` and `Coords` hold the shared pieces: results, exceptions, insertion-ordered maps, strings, and feature-pack coordinates.

Objects whose fields the source updates become classes with `modifies` clauses. Each method is tied by its `ensures` to a function of the old state and its inputs. Lemmas then prove what the source promises about those functions. Exceptions are values of a `Result` type, and Java's `null` is an `Option`.

## Model

| member | source | states |
|---|---|---|
| Errors.CollectionText | feature-pack-api/src/main/java/org/jboss/provisioning/Errors.java:111 | the text of a collection opens with `[` and closes with `]`, and is `[]` for no elements |
| Errors.PackageContentCopyFailed | feature-pack-api/src/main/java/org/jboss/provisioning/Errors.java:86-88 | the message frames the package name between "Failed to copy package " and " content" |
| Errors.PackageNotFound | feature-pack-api/src/main/java/org/jboss/provisioning/Errors.java:90-92 | the message names the package after "Failed to resolve package ", then the feature-pack coordinates |
| Errors.MissingParameter | feature-pack-api/src/main/java/org/jboss/provisioning/Errors.java:94-96 | the message is "Missing " followed by what is missing |
| Errors.UnknownPackage | feature-pack-api/src/main/java/org/jboss/provisioning/Errors.java:98-100 | the message names the package, then the feature-pack it is not found in |
| Errors.UnknownFeaturePack | feature-pack-api/src/main/java/org/jboss/provisioning/Errors.java:102-104 | the message frames the coordinates between "Feature-pack " and " is not found" |
| Errors.FeaturePackVersionConflict | feature-pack-api/src/main/java/org/jboss/provisioning/Errors.java:106-108 | the message names the GA of the first coordinates, then the first version, then the second, with a missing version read as "null" |
| Errors.UnsatisfiedPackageDependencies | feature-pack-api/src/main/java/org/jboss/provisioning/Errors.java:110-112 | the message names feature-pack and package, then the unsatisfied dependencies as a bracketed list |
| Errors.UnsatisfiedPackageDependency | feature-pack-api/src/main/java/org/jboss/provisioning/Errors.java:114-116 | the message names feature-pack and source package, then the target package |
| Errors.UnsatisfiedExternalPackageDependency | feature-pack-api/src/main/java/org/jboss/provisioning/Errors.java:118-120 | the message names the source feature-pack and package, then the target feature-pack and package |
| Errors.PackageExcludeInclude | feature-pack-api/src/main/java/org/jboss/provisioning/Errors.java:122-124 | the message frames the package name between "Package " and " is explicitly excluded and included" |
| Errors.DuplicateDependencyName | feature-pack-api/src/main/java/org/jboss/provisioning/Errors.java:126-128 | the message frames the dependency name between "Dependency with name " and " already exists" |
| Errors.UnknownDependencyName | feature-pack-api/src/main/java/org/jboss/provisioning/Errors.java:130-132 | the message names the dependency, then the feature-pack whose description lacks it |
| Errors.FeaturePackAlreadyInstalled | feature-pack-api/src/main/java/org/jboss/provisioning/Errors.java:134-136 | the message frames the coordinates between "Feature-pack " and " is already installed" |
| Errors.UnknownFeaturePackDependencyName | feature-pack-api/src/main/java/org/jboss/provisioning/Errors.java:138-140 | the message names feature-pack and package, then the unknown dependency name |
| Errors.PackageAlreadyExists | feature-pack-api/src/main/java/org/jboss/provisioning/Errors.java:142-144 | the message names the package, then the feature-pack it already exists in |
| Errors.PackageParameterResolverNotProvided | feature-pack-api/src/main/java/org/jboss/provisioning/Errors.java:146-148 | the message names the package, then the feature-pack |
| Errors.UnknownParameterInDependency | feature-pack-api/src/main/java/org/jboss/provisioning/Errors.java:150-153 | the message names source package, feature-pack, parameter and target package, in that order |
| Errors.PackageExcludeIncludeNamesPackage | feature-pack-api/src/main/java/org/jboss/provisioning/Errors.java:122-124 | two exclude-and-include messages are equal exactly when they name the same package |
| Errors.MissingParameterNamesParameter | feature-pack-api/src/main/java/org/jboss/provisioning/Errors.java:94-96 | two missing-parameter messages are equal exactly when they name the same thing |
| Errors.DuplicateDependencyNameNamesDependency | feature-pack-api/src/main/java/org/jboss/provisioning/Errors.java:126-128 | two duplicate-dependency messages are equal exactly when they name the same dependency |
| Errors.PackageMessagesNamePackage | feature-pack-api/src/main/java/org/jboss/provisioning/Errors.java:90-100 | for one feature-pack, the unknown-package and package-not-found messages are equal exactly when they name the same package |
| Errors.VersionConflictOrder | feature-pack-api/src/main/java/org/jboss/provisioning/Errors.java:106-108 | for versions whose texts have the same length, a conflict between two versions of one GA, reported in the opposite order, reads the same only when the versions read the same |
| Errors.VersionConflictAmbiguous | feature-pack-api/src/main/java/org/jboss/provisioning/Errors.java:106-108 | the versions `x` and `x and x` differ and still give the same conflict text in both orders |
| ProvisioningTask.WithPlugin | feature-pack-api/src/main/java/org/jboss/provisioning/ProvisioningTask.java:288-301 | adding a plugin keeps the earlier ones as a prefix, makes the coordinate present, adds nothing else and keeps the plugins distinct |
| ProvisioningTask.FirstIndex | feature-pack-api/src/main/java/org/jboss/provisioning/ProvisioningTask.java:288-301 | the first position of a coordinate holds it and no earlier position does |
| ProvisioningTask.WithPluginsShape | feature-pack-api/src/main/java/org/jboss/provisioning/ProvisioningTask.java:138-142 | the collected plugins are the earlier ones followed by each coordinate not seen before, each once |
| ProvisioningTask.WithPluginsOrder | feature-pack-api/src/main/java/org/jboss/provisioning/ProvisioningTask.java:138-142 | plugins added later are ordered by where each first occurs in the specs' plugin lists |
| ProvisioningTask.PluginsPrefix | feature-pack-api/src/main/java/org/jboss/provisioning/ProvisioningTask.java:138-142 | collecting plugins never drops or reorders those already collected |
| ProvisioningTask.NewKeys | feature-pack-api/src/main/java/org/jboss/provisioning/ProvisioningTask.java:219-226 | the incoming keys that the existing map lacks, and only those |
| ProvisioningTask.NewKeysDistinct | feature-pack-api/src/main/java/org/jboss/provisioning/ProvisioningTask.java:219-226 | the new keys of a distinct key list are distinct |
| ProvisioningTask.MergeOf | feature-pack-api/src/main/java/org/jboss/provisioning/ProvisioningTask.java:203-229 | the merged map keeps the existing keys in order, then appends the new incoming keys in theirs |
| ProvisioningTask.MergeStep | feature-pack-api/src/main/java/org/jboss/provisioning/ProvisioningTask.java:218-226 | absorbing the next incoming entry either merges into the existing builder or appends the entry last |
| ProvisioningTask.MergeSingle | feature-pack-api/src/main/java/org/jboss/provisioning/ProvisioningTask.java:211-216 | the one-key shortcut (same key on both sides) gives what the general loop gives |
| ProvisioningTask.MergeIntoEmpty | feature-pack-api/src/main/java/org/jboss/provisioning/ProvisioningTask.java:208-210 | merging into an empty map gives the incoming map |
| ProvisioningTask.MergeOfShape | feature-pack-api/src/main/java/org/jboss/provisioning/ProvisioningTask.java:203-229 | no key is dropped; a key in both maps has its builder absorb the incoming built config; every other entry is taken over as it is |
| ProvisioningTask.Merge | feature-pack-api/src/main/java/org/jboss/provisioning/ProvisioningTask.java:203-229 | `merge` returns the incoming map itself into an empty map and otherwise the merge of the two |
| ProvisioningTask.Enforce | feature-pack-api/src/main/java/org/jboss/provisioning/ProvisioningTask.java:178-201 | a GAV without a builder gets a fresh builder from spec and config, appended last; a GAV with one has the config enforced; other entries are kept |
| ProvisioningTask.EnforceAll | feature-pack-api/src/main/java/org/jboss/provisioning/ProvisioningTask.java:86-88 | enforcing a list of configs in order keeps the map valid |
| ProvisioningTask.EnforceAllKeeps | feature-pack-api/src/main/java/org/jboss/provisioning/ProvisioningTask.java:86-88 | enforcing keeps every existing key in its place and leaves the builders no config names untouched |
| ProvisioningTask.EnforceAllLast | feature-pack-api/src/main/java/org/jboss/provisioning/ProvisioningTask.java:161-163 | the builder of a GAV named by some config ends with the last config that names it |
| ProvisioningTask.Registered | feature-pack-api/src/main/java/org/jboss/provisioning/ProvisioningTask.java:119-154 | a GA not in the layout is fetched, its plugins collected and its spec registered; a GA already there is reused when the version matches and fails with the version conflict otherwise |
| ProvisioningTask.Laid | feature-pack-api/src/main/java/org/jboss/provisioning/ProvisioningTask.java:115-176 | laying out a feature-pack returns a valid builder map or the first failure |
| ProvisioningTask.LaidOut | feature-pack-api/src/main/java/org/jboss/provisioning/ProvisioningTask.java:157-164 | laying out a list of configs, then enforcing them, returns a valid builder map or the first failure |
| ProvisioningTask.LaidAll | feature-pack-api/src/main/java/org/jboss/provisioning/ProvisioningTask.java:158-160 | laying out configs in order, merging each result, returns a valid map or stops at the first failure |
| ProvisioningTask.RegisteredGrows | feature-pack-api/src/main/java/org/jboss/provisioning/ProvisioningTask.java:122-154 | for a repository whose specs carry the coordinates they were fetched under, registering keeps every earlier registration and fetches each feature-pack at most once |
| ProvisioningTask.LaidGrows | feature-pack-api/src/main/java/org/jboss/provisioning/ProvisioningTask.java:115-176 | for such a repository, a successful layout keeps what was registered, registers the requested coordinates and fetches every feature-pack at most once |
| ProvisioningTask.LaidOutGrows | feature-pack-api/src/main/java/org/jboss/provisioning/ProvisioningTask.java:157-164 | for such a repository, laying out a list of dependencies only adds to the state and fetches each feature-pack at most once |
| ProvisioningTask.LaidAllGrows | feature-pack-api/src/main/java/org/jboss/provisioning/ProvisioningTask.java:158-160 | for such a repository, the layout loop only adds to the state and fetches each feature-pack at most once |
| ProvisioningTask.LaidAllRegisters | feature-pack-api/src/main/java/org/jboss/provisioning/ProvisioningTask.java:82-85 | for such a repository, after laying out a list of configs, each is registered with its own coordinates |
| ProvisioningTask.LaidRevisit | feature-pack-api/src/main/java/org/jboss/provisioning/ProvisioningTask.java:149-154 | a GA already laid out in another version fails with the version conflict (registered version first) before any fetch; with the same version nothing is fetched |
| ProvisioningTask.ConflictAfterLaid | feature-pack-api/src/main/java/org/jboss/provisioning/ProvisioningTask.java:149-154 | for such a repository, once a feature-pack is laid out, asking for the same GA in another version fails with the version conflict |
| ProvisioningTask.SelfDependencyOverflows | feature-pack-api/src/main/java/org/jboss/provisioning/ProvisioningTask.java:157-160 | for such a repository, a feature-pack that depends on itself recurses until the stack runs out: there is no cycle check |
| ProvisioningTask.PluginsFromStops | feature-pack-api/src/main/java/org/jboss/provisioning/ProvisioningTask.java:278-284 | plugins are called in order until one throws; that one is the last called and the run fails with "Provisioning plugin failed" |
| ProvisioningTask.RunPlugins | feature-pack-api/src/main/java/org/jboss/provisioning/ProvisioningTask.java:278-284 | the loop over the loaded plugins reports how many were called and the outcome, as the specification function does |
| ProvisioningTask.ExecutePluginsOnlyWhenCollected | feature-pack-api/src/main/java/org/jboss/provisioning/ProvisioningTask.java:107-109 | no plugin is called when none was collected; otherwise the first plugin failure fails the run |
| ProvisioningTask.Task.constructor | feature-pack-api/src/main/java/org/jboss/provisioning/ProvisioningTask.java:63-71 | a new task has an empty layout, no plugins and no fetches |
| ProvisioningTask.Task.AddProvisioningPlugin | feature-pack-api/src/main/java/org/jboss/provisioning/ProvisioningTask.java:288-301 | a coordinate not collected yet goes last; a collected one changes nothing |
| ProvisioningTask.Task.LayoutFeaturePack | feature-pack-api/src/main/java/org/jboss/provisioning/ProvisioningTask.java:115-176 | the method's result and new state are those of the layout function |
| ProvisioningTask.Task.Register | feature-pack-api/src/main/java/org/jboss/provisioning/ProvisioningTask.java:119-154 | the method's result and new state are those of the registration function |
| ProvisioningTask.Task.LayoutDependencies | feature-pack-api/src/main/java/org/jboss/provisioning/ProvisioningTask.java:156-164 | the method's result and new state are those of laying out the spec's dependencies |
| ProvisioningTask.Task.LayoutEach | feature-pack-api/src/main/java/org/jboss/provisioning/ProvisioningTask.java:158-160 | the method's result and new state are those of the layout loop function |
| ProvisioningTask.Task.EnforceEach | feature-pack-api/src/main/java/org/jboss/provisioning/ProvisioningTask.java:161-163 | the method returns what enforcing the configs in order gives |
| ProvisioningTask.Task.Execute | feature-pack-api/src/main/java/org/jboss/provisioning/ProvisioningTask.java:73-113 | the method's result and new state are those of `ExecuteOutcome`: layout, enforcement, the built extended config and the plugins' outcome (state resolution and installation are not modelled) |
| ProvisioningTask.ExecuteOutcome | feature-pack-api/src/main/java/org/jboss/provisioning/ProvisioningTask.java:73-113 | a layout failure ends the run unchanged; a successful run keeps the laid-out state, builds one config per laid-out feature-pack in key order, and calls every plugin when any was collected |
| ProvisioningScenario.GasDiffer | feature-pack-api/src/test/java/org/jboss/provisioning/featurepack/dependency/override/test/ExplicitExcludeFromDependenciesTestCase.java:41-83 | the three feature-packs of the scenario have distinct GAs |
| ProvisioningScenario.FirstVisit | feature-pack-api/src/main/java/org/jboss/provisioning/ProvisioningTask.java:122-148 | a feature-pack met for the first time is fetched and registered, and no plugin is collected from a spec without plugins |
| ProvisioningScenario.Registrations | feature-pack-api/src/test/java/org/jboss/provisioning/featurepack/dependency/override/test/ExplicitExcludeFromDependenciesTestCase.java:41-62 | fp1, fp2 and fp3 are fetched in that order; fp3, met again from fp1, is reused without a fetch |
| ProvisioningScenario.Fp3Laid | feature-pack-api/src/test/java/org/jboss/provisioning/featurepack/dependency/override/test/ExplicitExcludeFromDependenciesTestCase.java:83-100 | fp3 has no dependencies, so laying it out returns no builders |
| ProvisioningScenario.Fp2Laid | feature-pack-api/src/test/java/org/jboss/provisioning/featurepack/dependency/override/test/ExplicitExcludeFromDependenciesTestCase.java:58-62 | laying out fp2 returns one builder for fp3, created from fp2's config |
| ProvisioningScenario.Fp1Deps | feature-pack-api/src/test/java/org/jboss/provisioning/featurepack/dependency/override/test/ExplicitExcludeFromDependenciesTestCase.java:41-49 | laying out fp1's dependencies returns the builders of fp2's layout |
| ProvisioningScenario.MergeNothingInto | feature-pack-api/src/main/java/org/jboss/provisioning/ProvisioningTask.java:218-226 | merging an empty map changes nothing |
| ProvisioningScenario.Fp1Enforce | feature-pack-api/src/test/java/org/jboss/provisioning/featurepack/dependency/override/test/ExplicitExcludeFromDependenciesTestCase.java:42-49 | fp1 enforces its config for fp3 on the builder fp2 created, and adds a builder for fp2 |
| ProvisioningScenario.Fp1Laid | feature-pack-api/src/test/java/org/jboss/provisioning/featurepack/dependency/override/test/ExplicitExcludeFromDependenciesTestCase.java:41-57 | laying out fp1 visits fp1, fp2 and fp3 and returns the fp3 and fp2 builders |
| ProvisioningScenario.RequestedDeps | feature-pack-api/src/test/java/org/jboss/provisioning/featurepack/dependency/override/test/ExplicitExcludeFromDependenciesTestCase.java:106-112 | laying out the requested fp1 returns the builders of fp1's layout |
| ProvisioningScenario.RequestedEnforce | feature-pack-api/src/test/java/org/jboss/provisioning/featurepack/dependency/override/test/ExplicitExcludeFromDependenciesTestCase.java:106-112 | enforcing the requested config adds fp1's own builder last |
| ProvisioningScenario.RequestedLaid | feature-pack-api/src/test/java/org/jboss/provisioning/featurepack/dependency/override/test/ExplicitExcludeFromDependenciesTestCase.java:106-112 | the whole layout of the request gives the three builders |
| ProvisioningScenario.ExplicitExcludeLayout | feature-pack-api/src/test/java/org/jboss/provisioning/featurepack/dependency/override/test/ExplicitExcludeFromDependenciesTestCase.java:106-112 | provisioning fp1 fetches fp1, fp2, fp3 in order, collects no plugin, and builds fp3's config from fp2's then enforces fp1's |
| WfParsing.ToFailure | wildfly-provisioning-plugin/src/main/java/org/jboss/provisioning/plugin/wildfly/WfProvisionedConfigHandler.java:529-590 | an empty item throws `ProvisioningDescriptionException`; a mapping text that starts with a comma makes `substring(-1, 0)` throw an index exception |
| WfParsing.JoinSplit | wildfly-provisioning-plugin/src/main/java/org/jboss/provisioning/plugin/wildfly/WfProvisionedConfigHandler.java:520-538 | splitting a note at its commas and joining the items again gives the note back |
| WfParsing.ItemsHaveNoComma | wildfly-provisioning-plugin/src/main/java/org/jboss/provisioning/plugin/wildfly/WfProvisionedConfigHandler.java:526-533 | no item of a split note contains a comma |
| WfParsing.SetScanIsItems | wildfly-provisioning-plugin/src/main/java/org/jboss/provisioning/plugin/wildfly/WfProvisionedConfigHandler.java:524-539 | the `parseSet` loop collects the items from the cursor on and fails on the first empty one |
| WfParsing.ParseSet | wildfly-provisioning-plugin/src/main/java/org/jboss/provisioning/plugin/wildfly/WfProvisionedConfigHandler.java:516-540 | the method returns what the item-level definition of `parseSet` gives |
| WfParsing.ParsedSetBasics | wildfly-provisioning-plugin/src/main/java/org/jboss/provisioning/plugin/wildfly/WfProvisionedConfigHandler.java:517-523 | the empty note is the empty set; a note without a comma after its first character is a singleton |
| WfParsing.ParsedSetItems | wildfly-provisioning-plugin/src/main/java/org/jboss/provisioning/plugin/wildfly/WfProvisionedConfigHandler.java:524-539 | a note with a comma after its first character fails exactly when some item is empty, and otherwise gives exactly the set of its items |
| WfParsing.ParsedSetRejectsEmptyItems | wildfly-provisioning-plugin/src/main/java/org/jboss/provisioning/plugin/wildfly/WfProvisionedConfigHandler.java:528-537 | a trailing comma, or two commas in a row, make `parseSet` throw |
| WfParsing.ParsedSet | wildfly-provisioning-plugin/src/main/java/org/jboss/provisioning/plugin/wildfly/WfProvisionedConfigHandler.java:516-540 | a parsed set never holds the empty name, and the only failure is the empty-item error for the note |
| WfParsing.ListNames | wildfly-provisioning-plugin/src/main/java/org/jboss/provisioning/plugin/wildfly/WfProvisionedConfigHandler.java:543-557 | the empty note has no items |
| WfParsing.CursorAdvance | wildfly-provisioning-plugin/src/main/java/org/jboss/provisioning/plugin/wildfly/WfProvisionedConfigHandler.java:584-587 | after an item, a mapping cursor standing before a comma moves past it |
| WfParsing.CursorStays | wildfly-provisioning-plugin/src/main/java/org/jboss/provisioning/plugin/wildfly/WfProvisionedConfigHandler.java:584-587 | a mapping cursor with no comma ahead stays where it is |
| WfParsing.CursorMapped | wildfly-provisioning-plugin/src/main/java/org/jboss/provisioning/plugin/wildfly/WfProvisionedConfigHandler.java:566-574 | an item before the last is mapped to itself without a mapping comma, throws on a mapping text that starts with a comma, and otherwise gets the current mapping item |
| WfParsing.CursorMappedLast | wildfly-provisioning-plugin/src/main/java/org/jboss/provisioning/plugin/wildfly/WfProvisionedConfigHandler.java:593 | the last item gets itself without a mapping, else the rest of the mapping text |
| WfParsing.ScanIsListFrom | wildfly-provisioning-plugin/src/main/java/org/jboss/provisioning/plugin/wildfly/WfProvisionedConfigHandler.java:561-600 | the cursor loop of `parseList` computes the item-level definition, from any item on |
| WfParsing.ScanItemList | wildfly-provisioning-plugin/src/main/java/org/jboss/provisioning/plugin/wildfly/WfProvisionedConfigHandler.java:561-588 | one pass of the loop agrees with one item of the item-level definition |
| WfParsing.ScanEnds | wildfly-provisioning-plugin/src/main/java/org/jboss/provisioning/plugin/wildfly/WfProvisionedConfigHandler.java:589-600 | with no comma left, the loop ends with the pass over the last item |
| WfParsing.ParsedListIsScan | wildfly-provisioning-plugin/src/main/java/org/jboss/provisioning/plugin/wildfly/WfProvisionedConfigHandler.java:558-600 | for a note with a comma after its first character, the loop from the start computes `parseList`'s result |
| WfParsing.ParseList | wildfly-provisioning-plugin/src/main/java/org/jboss/provisioning/plugin/wildfly/WfProvisionedConfigHandler.java:542-601 | the method returns what the item-level definition of `parseList` gives |
| WfParsing.ParseListItems | wildfly-provisioning-plugin/src/main/java/org/jboss/provisioning/plugin/wildfly/WfProvisionedConfigHandler.java:558-600 | the loop over a multi-item note returns what the cursor function gives from the first item |
| WfParsing.ListLastStep | wildfly-provisioning-plugin/src/main/java/org/jboss/provisioning/plugin/wildfly/WfProvisionedConfigHandler.java:589-600 | the pass over the last item after the loop is the one the cursor function describes |
| WfParsing.ListItemStep | wildfly-provisioning-plugin/src/main/java/org/jboss/provisioning/plugin/wildfly/WfProvisionedConfigHandler.java:561-588 | one pass of the loop, with the item, its mapped name, the filter and the skip set, is the one the cursor function describes |
| WfListFacts.AcceptedFrom | wildfly-provisioning-plugin/src/main/java/org/jboss/provisioning/plugin/wildfly/WfProvisionedConfigHandler.java:576-580 | the names kept are accepted by the filter and no more than the items |
| WfListFacts.PairsFromShape | wildfly-provisioning-plugin/src/main/java/org/jboss/provisioning/plugin/wildfly/WfProvisionedConfigHandler.java:576-578 | a list of pairs has even length and its names are the accepted items, in order |
| WfListFacts.ListFromPairs | wildfly-provisioning-plugin/src/main/java/org/jboss/provisioning/plugin/wildfly/WfProvisionedConfigHandler.java:561-600 | when every item passes, `parseList` returns the (name, mapped name) pair of every accepted item |
| WfListFacts.ListFromSomePasses | wildfly-provisioning-plugin/src/main/java/org/jboss/provisioning/plugin/wildfly/WfProvisionedConfigHandler.java:561-600 | a list result means every item passed |
| WfListFacts.ListFromNone | wildfly-provisioning-plugin/src/main/java/org/jboss/provisioning/plugin/wildfly/WfProvisionedConfigHandler.java:579-581 | a `null` result means some rejected item is listed as skip-if-filtered |
| WfListFacts.ListFromStopsAt | wildfly-provisioning-plugin/src/main/java/org/jboss/provisioning/plugin/wildfly/WfProvisionedConfigHandler.java:561-600 | the first item that does not pass decides the result whatever follows: an empty item or a bad mapping throws, a skip gives `null` |
| WfListFacts.MappedAtEqualLength | wildfly-provisioning-plugin/src/main/java/org/jboss/provisioning/plugin/wildfly/WfProvisionedConfigHandler.java:566-574 | with a mapping text of as many non-empty items as the note, item `j` maps to mapping item `j` |
| WfListFacts.ParsedListShape | wildfly-provisioning-plugin/src/main/java/org/jboss/provisioning/plugin/wildfly/WfProvisionedConfigHandler.java:542-601 | a list result has even length and its names are the accepted items of the note, in order |
| WfListFacts.ParsedListNone | wildfly-provisioning-plugin/src/main/java/org/jboss/provisioning/plugin/wildfly/WfProvisionedConfigHandler.java:553-598 | `null` only comes from a rejected item listed as skip-if-filtered |
| WfListFacts.ParsedListStopsAt | wildfly-provisioning-plugin/src/main/java/org/jboss/provisioning/plugin/wildfly/WfProvisionedConfigHandler.java:561-599 | the first item that does not pass decides the result; later items are not looked at |
| WfListFacts.ParsedListMapping | wildfly-provisioning-plugin/src/main/java/org/jboss/provisioning/plugin/wildfly/WfProvisionedConfigHandler.java:558-593 | without a mapping text each name maps to itself; with one of as many non-empty items, name `i` maps to mapping item `i` |
| WfOps.AddrLoop | wildfly-provisioning-plugin/src/main/java/org/jboss/provisioning/plugin/wildfly/WfProvisionedConfigHandler.java:92-100 | the address loop only appends to what was written before |
| WfOps.OpLoop | wildfly-provisioning-plugin/src/main/java/org/jboss/provisioning/plugin/wildfly/WfProvisionedConfigHandler.java:104-123 | the `OP` parameter loop only appends to what was written before |
| WfOps.Suffix | wildfly-provisioning-plugin/src/main/java/org/jboss/provisioning/plugin/wildfly/WfProvisionedConfigHandler.java:102-144 | the operation-kind suffix only appends to what was written before |
| WfOps.CommandLine | wildfly-provisioning-plugin/src/main/java/org/jboss/provisioning/plugin/wildfly/WfProvisionedConfigHandler.java:83-148 | a preset line is returned as it is; otherwise the line starts with the address prefix |
| WfOps.ManagedOp.constructor | wildfly-provisioning-plugin/src/main/java/org/jboss/provisioning/plugin/wildfly/WfProvisionedConfigHandler.java:66-72 | a new operation has the fields `reset` leaves |
| WfOps.ManagedOp.Reset | wildfly-provisioning-plugin/src/main/java/org/jboss/provisioning/plugin/wildfly/WfProvisionedConfigHandler.java:74-81 | `reset` clears line, prefix and name, empties both lists and sets the kind to `OP` |
| WfOps.ManagedOp.ToCommandLine | wildfly-provisioning-plugin/src/main/java/org/jboss/provisioning/plugin/wildfly/WfProvisionedConfigHandler.java:83-148 | the method returns the command line the specification function gives for the current fields |
| WfOps.ManagedOp.AppendSuffix | wildfly-provisioning-plugin/src/main/java/org/jboss/provisioning/plugin/wildfly/WfProvisionedConfigHandler.java:102-144 | the method appends what the specification of the `switch` gives |
| WfOps.Flatten | wildfly-provisioning-plugin/src/main/java/org/jboss/provisioning/plugin/wildfly/WfProvisionedConfigHandler.java:576-578 | a flat list holds each pair's name at an even index and its mapped name right after it |
| WfOps.AddrLoopPairs | wildfly-provisioning-plugin/src/main/java/org/jboss/provisioning/plugin/wildfly/WfProvisionedConfigHandler.java:92-100 | with every address parameter valued, the loop writes `/<mapped name>=<value>` for every pair |
| WfOps.AddrLoopValued | wildfly-provisioning-plugin/src/main/java/org/jboss/provisioning/plugin/wildfly/WfProvisionedConfigHandler.java:94-98 | a valued parameter writes one address element and moves past the pair |
| WfOps.OpLoopPairs | wildfly-provisioning-plugin/src/main/java/org/jboss/provisioning/plugin/wildfly/WfProvisionedConfigHandler.java:107-122 | with every parameter valued, the `OP` loop writes the remaining arguments and the closing parenthesis |
| WfOps.OpArguments | wildfly-provisioning-plugin/src/main/java/org/jboss/provisioning/plugin/wildfly/WfProvisionedConfigHandler.java:104-123 | `OP` with valued parameters appends `(k1=v1,k2=v2,...)` |
| WfOps.OpLoopNoValues | wildfly-provisioning-plugin/src/main/java/org/jboss/provisioning/plugin/wildfly/WfProvisionedConfigHandler.java:104-123 | `OP` appends nothing when no parameter has a value |
| WfOps.CommandLineFormat | wildfly-provisioning-plugin/src/main/java/org/jboss/provisioning/plugin/wildfly/WfProvisionedConfigHandler.java:88-145 | with every address parameter valued, the line is the prefix, the address, `:` and the name, then the kind's suffix |
| WfOps.AttributeSuffix | wildfly-provisioning-plugin/src/main/java/org/jboss/provisioning/plugin/wildfly/WfProvisionedConfigHandler.java:126-141 | `WRITE_ATTR` and `LIST_ADD` append `(name=<second>,value=<value>)` and fail when the value is missing |
| WfOps.AddrLoopSingleStep | wildfly-provisioning-plugin/src/main/java/org/jboss/provisioning/plugin/wildfly/WfProvisionedConfigHandler.java:94-97 | a parameter without a value moves the index by one, so its mapped name is looked up next and paired with the following name |
| WfHandler.Prepared | wildfly-provisioning-plugin/src/main/java/org/jboss/provisioning/plugin/wildfly/WfProvisionedConfigHandler.java:187-259 | `prepare` succeeds exactly for the standalone, domain and host models with their config-name property. The operations file is the value of `config-name`, `domain-config-name` or `host-config-name` for that model. It installs the model's filter. It uses the temporary host config for the domain model, and the temporary domain config for a host without `domain-config-name`. A missing property fails with its "is missing property" message, and any other model with "Unsupported config model" |
| WfHandler.PreparedCommand | wildfly-provisioning-plugin/src/main/java/org/jboss/provisioning/plugin/wildfly/WfProvisionedConfigHandler.java:196-247 | every embed command names the file given by the model's config-name property, which is also the operations file. A host names its domain config, or the temporary one when it has none. Every command ends with the server's home directory |
| WfHandler.OpKindOf | wildfly-provisioning-plugin/src/main/java/org/jboss/provisioning/plugin/wildfly/WfProvisionedConfigHandler.java:298-306 | `write-attribute` selects `WRITE_ATTR`, `list-add` selects `LIST_ADD`, every other name `OP` |
| WfHandler.UndefinedLoop | wildfly-provisioning-plugin/src/main/java/org/jboss/provisioning/plugin/wildfly/WfProvisionedConfigHandler.java:350-371 | the loop over the spec's parameter names never undoes a skip |
| WfHandler.MissingAddrParamsFails | wildfly-provisioning-plugin/src/main/java/org/jboss/provisioning/plugin/wildfly/WfProvisionedConfigHandler.java:318-321 | an annotation without a line and without `addr-params` throws |
| WfHandler.WriteAttributeOnePair | wildfly-provisioning-plugin/src/main/java/org/jboss/provisioning/plugin/wildfly/WfProvisionedConfigHandler.java:385-389 | a kept `write-attribute` operation has exactly one (name, mapped name) pair of operation parameters |
| WfHandler.UndefinedParamsOutcome | wildfly-provisioning-plugin/src/main/java/org/jboss/provisioning/plugin/wildfly/WfProvisionedConfigHandler.java:342-372 | without `op-params`, a negative list size throws `IllegalArgumentException` exactly when there are fewer parameters than address pairs; zero or no parameters give the empty list; the loop only fails on `add` |
| WfHandler.OpParamsStepOutcome | wildfly-provisioning-plugin/src/main/java/org/jboss/provisioning/plugin/wildfly/WfProvisionedConfigHandler.java:337-389 | a kept `write-attribute` operation has one parameter pair, an explicit `op-params` never skips, and a negative list size only arises without `op-params` |
| WfHandler.AnnotationStepOutcome | wildfly-provisioning-plugin/src/main/java/org/jboss/provisioning/plugin/wildfly/WfProvisionedConfigHandler.java:288-389 | an annotation with a line never fails and keeps the line; a kept `write-attribute` operation has one parameter pair |
| WfHandler.UndefinedLoopKeeps | wildfly-provisioning-plugin/src/main/java/org/jboss/provisioning/plugin/wildfly/WfProvisionedConfigHandler.java:350-371 | without a skip, the loop over undefined parameters keeps the operation kind |
| WfHandler.SpecLoop | wildfly-provisioning-plugin/src/main/java/org/jboss/provisioning/plugin/wildfly/WfProvisionedConfigHandler.java:287-390 | the `nextSpec` loop keeps the number of slots and never ends with more operations than annotations |
| WfHandler.SpecLoopUnfold | wildfly-provisioning-plugin/src/main/java/org/jboss/provisioning/plugin/wildfly/WfProvisionedConfigHandler.java:288-335 | one pass of the loop translates annotation `i` into slot `i` and moves on, or steps back after a skip |
| WfHandler.Grown | wildfly-provisioning-plugin/src/main/java/org/jboss/provisioning/plugin/wildfly/WfProvisionedConfigHandler.java:276-285 | growing keeps the old slots as a prefix and gives at least as many slots as operations |
| WfHandler.SpecLoopNoSkips | wildfly-provisioning-plugin/src/main/java/org/jboss/provisioning/plugin/wildfly/WfProvisionedConfigHandler.java:287-390 | when no annotation is skipped, each fills its own slot and all of them are operations |
| WfHandler.SpecLoopSkipDropsRest | wildfly-provisioning-plugin/src/main/java/org/jboss/provisioning/plugin/wildfly/WfProvisionedConfigHandler.java:329-335 | once an annotation is skipped, it is read and skipped again until the total reaches its index, so it and every later annotation are dropped |
| WfHandler.FeatureLines | wildfly-provisioning-plugin/src/main/java/org/jboss/provisioning/plugin/wildfly/WfProvisionedConfigHandler.java:399-403 | `nextFeature` writes at most one line per operation, and one for each when nothing fails |
| WfHandler.Handler.constructor | wildfly-provisioning-plugin/src/main/java/org/jboss/provisioning/plugin/wildfly/WfProvisionedConfigHandler.java:154-165 | a new handler has one reset operation slot, no operations, no filter and an empty operations file |
| WfHandler.Handler.Prepare | wildfly-provisioning-plugin/src/main/java/org/jboss/provisioning/plugin/wildfly/WfProvisionedConfigHandler.java:187-259 | the method's outcome and setup are those of the `prepare` function; the operations are untouched |
| WfHandler.Handler.Grow | wildfly-provisioning-plugin/src/main/java/org/jboss/provisioning/plugin/wildfly/WfProvisionedConfigHandler.java:277-284 | growing keeps the old operation objects in place and adds fresh reset ones |
| WfHandler.Handler.NextSpec | wildfly-provisioning-plugin/src/main/java/org/jboss/provisioning/plugin/wildfly/WfProvisionedConfigHandler.java:266-391 | for a spec whose parameter names are distinct, the method's outcome, operation count and slots are those the specification function gives, including the `IllegalArgumentException` for a negative list size |
| WfHandler.Handler.NextFeature | wildfly-provisioning-plugin/src/main/java/org/jboss/provisioning/plugin/wildfly/WfProvisionedConfigHandler.java:393-404 | the lines appended to the operations file are the command lines of the active operations, up to the first failure |
| WfHandler.TranslateAll | wildfly-provisioning-plugin/src/main/java/org/jboss/provisioning/plugin/wildfly/WfProvisionedConfigHandler.java:287-390 | the loop over the operation objects leaves the slots and count of the loop function |
| WfHandler.TranslateNext | wildfly-provisioning-plugin/src/main/java/org/jboss/provisioning/plugin/wildfly/WfProvisionedConfigHandler.java:288-390 | one pass at index `i` throws for a negative index, otherwise fills slot `i`; the loop function from the old slots equals the loop function from the new slots, index and total moved back by the skips |
| WfHandler.SpecLoopEnds | wildfly-provisioning-plugin/src/main/java/org/jboss/provisioning/plugin/wildfly/WfProvisionedConfigHandler.java:287-288 | the loop ends with the current slots once the index reaches the number of operations |
| WfHandler.TranslateSlot | wildfly-provisioning-plugin/src/main/java/org/jboss/provisioning/plugin/wildfly/WfProvisionedConfigHandler.java:289-292 | filling one slot changes only that operation |
| WfHandler.CommandLines | wildfly-provisioning-plugin/src/main/java/org/jboss/provisioning/plugin/wildfly/WfProvisionedConfigHandler.java:399-403 | the loop returns what the lines function gives |
| WfHandler.FeatureLinesAreCommandLines | wildfly-provisioning-plugin/src/main/java/org/jboss/provisioning/plugin/wildfly/WfProvisionedConfigHandler.java:399-403 | line `k` is operation `k`'s command line, and a failure is that of the operation right after the written lines |
| WfHandler.FeatureLinesStop | wildfly-provisioning-plugin/src/main/java/org/jboss/provisioning/plugin/wildfly/WfProvisionedConfigHandler.java:399-403 | once a line fails, nothing more is written |
| WfHandler.Translate | wildfly-provisioning-plugin/src/main/java/org/jboss/provisioning/plugin/wildfly/WfProvisionedConfigHandler.java:289-389 | one pass resets the operation and fills it from the annotation, as the specification function says, with every failure of that function |
| WfHandler.TranslateOpParams | wildfly-provisioning-plugin/src/main/java/org/jboss/provisioning/plugin/wildfly/WfProvisionedConfigHandler.java:337-389 | the operation parameters and the `write-attribute` check are those of the specification function, including the `IllegalArgumentException` for a negative list size, raised before `opParams` changes |
| WfHandler.FillUndefined | wildfly-provisioning-plugin/src/main/java/org/jboss/provisioning/plugin/wildfly/WfProvisionedConfigHandler.java:343-375 | the `for` loop over the parameter names computes the undefined-parameters function |
| ResolvedFeature.ResolveParam | feature-pack-api/src/main/java/org/jboss/provisioning/runtime/ResolvedFeature.java:72-88 | a value comes from a declared parameter; it is `null` only for a nillable parameter outside the id; a failure names the owner and the parameter |
| ResolvedFeature.ResolveParamCases | feature-pack-api/src/main/java/org/jboss/provisioning/runtime/ResolvedFeature.java:72-88 | the feature's own value wins, else the default, else `null` or "is missing required parameter" |
| ResolvedFeature.GetRefTarget | feature-pack-api/src/main/java/org/jboss/provisioning/runtime/ResolvedFeature.java:90-130 | the method returns the target the specification function gives |
| ResolvedFeature.MappedFromKeys | feature-pack-api/src/main/java/org/jboss/provisioning/runtime/ResolvedFeature.java:110-129 | when the mapping loop ends with a map, its keys are exactly the target parameters |
| ResolvedFeature.MappedFromResolved | feature-pack-api/src/main/java/org/jboss/provisioning/runtime/ResolvedFeature.java:111-126 | when the loop ends with a map, every local parameter resolved to a value |
| ResolvedFeature.MappedFromValues | feature-pack-api/src/main/java/org/jboss/provisioning/runtime/ResolvedFeature.java:111-128 | a target parameter not mapped again later holds its local parameter's value |
| ResolvedFeature.RefTargetMapped | feature-pack-api/src/main/java/org/jboss/provisioning/runtime/ResolvedFeature.java:110-129 | a reference with several mapped parameters targets the feature whose id maps every target parameter to its local value; with distinct targets the id has one entry per mapping |
| ResolvedFeature.DistinctTargetsCount | feature-pack-api/src/main/java/org/jboss/provisioning/runtime/ResolvedFeature.java:127 | distinct target parameters give as many id entries as mappings |
| ResolvedFeature.RefTargetSingle | feature-pack-api/src/main/java/org/jboss/provisioning/runtime/ResolvedFeature.java:92-109 | a reference with one mapped parameter targets the feature whose id has that single entry, exactly when the local value is present |
| ResolvedFeature.RefTargetNull | feature-pack-api/src/main/java/org/jboss/provisioning/runtime/ResolvedFeature.java:93-126 | the first local parameter without a value decides: a nillable reference has no target, any other fails with "cannot be null" |
| ResolvedFeature.MappedFromNull | feature-pack-api/src/main/java/org/jboss/provisioning/runtime/ResolvedFeature.java:112-125 | the mapping loop stops at the first missing value with the reference's null outcome |
| ResolvedFeature.ResolveRefs | feature-pack-api/src/main/java/org/jboss/provisioning/runtime/ResolvedFeature.java:53-70 | the method returns what the specification function of `resolveRefs` gives |
| ResolvedFeature.RefsFromIsTargets | feature-pack-api/src/main/java/org/jboss/provisioning/runtime/ResolvedFeature.java:62-69 | the loop from any entry on appends the non-null targets of the remaining entries, or stops at the first failure |
| ResolvedFeature.ResolveRefsIsTargets | feature-pack-api/src/main/java/org/jboss/provisioning/runtime/ResolvedFeature.java:53-70 | `resolveRefs`, with its shortcuts for none and one reference, gives the non-null targets in order or the first failure |
| ResolvedFeature.TargetsShape | feature-pack-api/src/main/java/org/jboss/provisioning/runtime/ResolvedFeature.java:62-69 | at most one id per reference, each the target of some reference, and one per reference when none is null |
| ResolvedFeature.SocketBindingWithoutInterface | feature-pack-api/src/test/java/org/jboss/provisioning/config/wf/DomainFeatureGroupFlatTestCase.java:117-123 | a socket binding whose nillable `interface` parameter is unset resolves to its socket binding group only |
| PackageDepsSpec.DepsSpec.ExternalPackageDeps | feature-pack-api/src/main/java/org/jboss/provisioning/spec/PackageDepsSpec.java:100-103 | an unknown source has no dependencies rather than `null`; a known one has its list |
| PackageDepsSpec.NoDeps | feature-pack-api/src/main/java/org/jboss/provisioning/spec/PackageDepsSpec.java:38-41 | the no-argument constructor depends on nothing, locally or externally |
| PackageDepsSpec.CopyOf | feature-pack-api/src/main/java/org/jboss/provisioning/spec/PackageDepsSpec.java:43-46 | the copy is equal to its source and agrees with it through every accessor |
| PackageDepsSpec.EqualsAgree | feature-pack-api/src/main/java/org/jboss/provisioning/spec/PackageDepsSpec.java:114-134 | equal dependency specs agree on `hasPackageDeps`, the local list, the sources and each source's list |
| PackageDepsSpec.Equals | feature-pack-api/src/main/java/org/jboss/provisioning/spec/PackageDepsSpec.java:114-134 | `equals` holds exactly when the two dependency specs are equal as values |
| PackageDepsSpec.BuiltFrom | feature-pack-api/src/main/java/org/jboss/provisioning/spec/PackageDepsSpec.java:48-62 | the local list holds the builder's local dependencies in insertion order; each known source maps to its dependencies in insertion order; there are dependencies exactly when the builder collected some |
| PackageDepsSpec.ExternalListsAre | feature-pack-api/src/main/java/org/jboss/provisioning/spec/PackageDepsSpec.java:50-61 | a map with the builder's sources, each holding its dependency list, is the external map |
| PackageDepsSpec.ValueList | feature-pack-api/src/main/java/org/jboss/provisioning/spec/PackageDepsSpec.java:64-78 | `getValueList` returns the values in insertion order for none, one and several entries |
| PackageDepsSpec.Build | feature-pack-api/src/main/java/org/jboss/provisioning/spec/PackageDepsSpec.java:48-62 | the builder constructor gives the spec the value function describes |
| PackageDepsSpec.ExternalValueLists | feature-pack-api/src/main/java/org/jboss/provisioning/spec/PackageDepsSpec.java:50-61 | the external map is the same whether empty, a singleton, or filled source by source |
| FpDescription.FpWithDeps.Dependencies | feature-pack-api/src/main/java/org/jboss/provisioning/descr/ProvisionedFeaturePackWithDependenciesDescription.java:81-83 | `getDependencies` lists one dependency per coordinates, in the order the coordinates were first added |
| FpDescription.Builder.constructor | feature-pack-api/src/main/java/org/jboss/provisioning/descr/ProvisionedFeaturePackWithDependenciesDescription.java:41-43 | a new builder has no dependencies |
| FpDescription.Builder.AddDependency | feature-pack-api/src/main/java/org/jboss/provisioning/descr/ProvisionedFeaturePackWithDependenciesDescription.java:45-56 | the dependency is put under its coordinates, whether the map is empty, a singleton or a linked map |
| FpDescription.Builder.Build | feature-pack-api/src/main/java/org/jboss/provisioning/descr/ProvisionedFeaturePackWithDependenciesDescription.java:58-62 | the description carries the collected fields and has dependencies exactly when some were added |
| FpDescription.AddedAll | feature-pack-api/src/main/java/org/jboss/provisioning/descr/ProvisionedFeaturePackWithDependenciesDescription.java:45-56 | adding dependencies one after another keeps the map well formed |
| FpDescription.AddedAllKeys | feature-pack-api/src/main/java/org/jboss/provisioning/descr/ProvisionedFeaturePackWithDependenciesDescription.java:45-56 | coordinates already there keep their place and each call adds at most one key |
| FpDescription.AddedAllDomain | feature-pack-api/src/main/java/org/jboss/provisioning/descr/ProvisionedFeaturePackWithDependenciesDescription.java:45-56 | the map knows exactly the coordinates it had and those added |
| FpDescription.AddedAllLast | feature-pack-api/src/main/java/org/jboss/provisioning/descr/ProvisionedFeaturePackWithDependenciesDescription.java:53 | the dependency added last for some coordinates is the one held for them |
| FpDescription.AddedAllUntouched | feature-pack-api/src/main/java/org/jboss/provisioning/descr/ProvisionedFeaturePackWithDependenciesDescription.java:53 | coordinates not added again keep their dependency |
| FpDescription.ReAddKeepsOrder | feature-pack-api/src/main/java/org/jboss/provisioning/descr/ProvisionedFeaturePackWithDependenciesDescription.java:53 | re-adding known coordinates replaces their dependency without moving or growing the keys |
| FpDescription.EqualsIgnoresOrder | feature-pack-api/src/main/java/org/jboss/provisioning/descr/ProvisionedFeaturePackWithDependenciesDescription.java:93-108 | the same dependencies with pairwise distinct coordinates, added in any two orders, give equal descriptions |
| FpDescription.EqualsSameDependencies | feature-pack-api/src/main/java/org/jboss/provisioning/descr/ProvisionedFeaturePackWithDependenciesDescription.java:77-108 | for dependencies keyed by their coordinates, `equals` holds exactly when the superclass parts agree and `getDependencies` reports the same dependencies in any order, then as many of them, with `hasDependencies` agreeing |
| ConfigRef.Create | feature-pack-api/src/main/java/org/jboss/provisioning/config/schema/ConfigRef.java:28-41 | `create` succeeds exactly when the path has as many names as there are feature-id values, and otherwise throws `IllegalArgumentException` with the length-mismatch message |
| ConfigRef.Rendered | feature-pack-api/src/main/java/org/jboss/provisioning/config/schema/ConfigRef.java:51-64 | the rendering is bracketed and is `[]` without feature-id values |
| ConfigRef.ToString | feature-pack-api/src/main/java/org/jboss/provisioning/config/schema/ConfigRef.java:51-64 | the loop renders the first pair, then `,name=value` for each further position, as the rendering function says |
| ConfigRef.PairsDetermine | feature-pack-api/src/main/java/org/jboss/provisioning/config/schema/ConfigRef.java:55-61 | with names and values free of `,` and `=`, the rendered pairs determine the names and the values |
| ConfigRef.RenderedDetermines | feature-pack-api/src/main/java/org/jboss/provisioning/config/schema/ConfigRef.java:35-92 | two references, of any lengths, each with a path as long as its feature id (as the constructor enforces) and with names and values free of `,` and `=`, render alike exactly when they are equal |
| ConfigRef.Equals | feature-pack-api/src/main/java/org/jboss/provisioning/config/schema/ConfigRef.java:75-92 | `equals` holds exactly when the two references are equal as values |
| PackageScripts.ScriptBuilder.constructor | wildfly-provisioning-plugin/src/main/java/org/jboss/provisioning/plugin/wildfly/config/PackageScripts.java:54-58 | a script builder fixes path, prefix and variability, with no parameters and no line |
| PackageScripts.ScriptBuilder.AddParameter | wildfly-provisioning-plugin/src/main/java/org/jboss/provisioning/plugin/wildfly/config/PackageScripts.java:60-71 | a parameter is put under its name, replacing the value of a name already there, whatever the map's current size |
| PackageScripts.ScriptBuilder.SetLine | wildfly-provisioning-plugin/src/main/java/org/jboss/provisioning/plugin/wildfly/config/PackageScripts.java:73-76 | the line is set and the parameters are unchanged |
| PackageScripts.ScriptBuilder.Build | wildfly-provisioning-plugin/src/main/java/org/jboss/provisioning/plugin/wildfly/config/PackageScripts.java:109-135 | the script carries the builder's fields; it has a prefix exactly when one was given, is static exactly when not variable, and has parameters exactly when some were added |
| PackageScripts.ScriptBuilderOf | wildfly-provisioning-plugin/src/main/java/org/jboss/provisioning/plugin/wildfly/config/PackageScripts.java:99-101 | the three-argument factory fixes all three fields as given |
| PackageScripts.ScriptBuilderWithPrefix | wildfly-provisioning-plugin/src/main/java/org/jboss/provisioning/plugin/wildfly/config/PackageScripts.java:95-97 | with a prefix argument the script is variable exactly when the prefix is present |
| PackageScripts.ScriptBuilderVariable | wildfly-provisioning-plugin/src/main/java/org/jboss/provisioning/plugin/wildfly/config/PackageScripts.java:91-93 | with a variability argument the script has no prefix |
| PackageScripts.ScriptBuilderFor | wildfly-provisioning-plugin/src/main/java/org/jboss/provisioning/plugin/wildfly/config/PackageScripts.java:83-89 | with only a path (or none) the script has no prefix and is static |
| PackageScripts.Builder.constructor | wildfly-provisioning-plugin/src/main/java/org/jboss/provisioning/plugin/wildfly/config/PackageScripts.java:148-153 | a new builder has three empty lists |
| PackageScripts.Builder.AddStandalone | wildfly-provisioning-plugin/src/main/java/org/jboss/provisioning/plugin/wildfly/config/PackageScripts.java:155-166 | the script is appended to the standalone list; the other lists are unchanged |
| PackageScripts.Builder.AddDomain | wildfly-provisioning-plugin/src/main/java/org/jboss/provisioning/plugin/wildfly/config/PackageScripts.java:168-179 | the script is appended to the domain list; the other lists are unchanged |
| PackageScripts.Builder.AddHost | wildfly-provisioning-plugin/src/main/java/org/jboss/provisioning/plugin/wildfly/config/PackageScripts.java:181-192 | the script is appended to the host list; the other lists are unchanged |
| PackageScripts.Builder.Build | wildfly-provisioning-plugin/src/main/java/org/jboss/provisioning/plugin/wildfly/config/PackageScripts.java:219-235 | the built lists are the builder's, and each `has*` holds exactly when its list is non-empty |
| PackageScripts.StaticScript | wildfly-provisioning-plugin/src/main/java/org/jboss/provisioning/plugin/wildfly/config/PackageScripts.java:87-89 | `builder(path)` gives a static script without prefix, parameters or line |
| PackageScripts.VariableScript | wildfly-provisioning-plugin/src/main/java/org/jboss/provisioning/plugin/wildfly/config/PackageScripts.java:91-93 | `builder(path, true)` gives a variable script without prefix |
| PackageScripts.PrefixedScript | wildfly-provisioning-plugin/src/main/java/org/jboss/provisioning/plugin/wildfly/config/PackageScripts.java:95-97 | `builder(path, prefix)` gives a variable script with that prefix |
| PackageScripts.StaticPrefixedScript | wildfly-provisioning-plugin/src/main/java/org/jboss/provisioning/plugin/wildfly/config/PackageScripts.java:99-101 | `builder(path, prefix, false)` gives a static script with that prefix |
| PackageScripts.Default | wildfly-provisioning-plugin/src/main/java/org/jboss/provisioning/plugin/wildfly/config/PackageScripts.java:203-213 | the default lists: four standalone scripts, four domain scripts (profile under each profile's address) and the host script under the host's address |
| CompositeFormat.MatchedIn | feature-pack-api/src/main/java/org/jboss/provisioning/util/formatparser/formats/CompositeParsingFormat.java:104-113 | a matched element is a registered name that starts at the cursor |
| CompositeFormat.MatchedInIsLongest | feature-pack-api/src/main/java/org/jboss/provisioning/util/formatparser/formats/CompositeParsingFormat.java:104-113 | the loop finds a name exactly when some registered name starts at the cursor, and that name is at least as long as every other one that does |
| CompositeFormat.SameLengthSameName | feature-pack-api/src/main/java/org/jboss/provisioning/util/formatparser/formats/CompositeParsingFormat.java:106-110 | two names of equal length starting at the cursor are the same name |
| CompositeFormat.MatchIncluded | feature-pack-api/src/main/java/org/jboss/provisioning/util/formatparser/formats/CompositeParsingFormat.java:104-113 | registering more names never loses a match and never shortens it |
| CompositeFormat.MatchOrderFree | feature-pack-api/src/main/java/org/jboss/provisioning/util/formatparser/formats/CompositeParsingFormat.java:105 | the matched name depends only on which names are registered, not on the map's iteration order |
| CompositeFormat.DealtOutcome | feature-pack-api/src/main/java/org/jboss/provisioning/util/formatparser/formats/CompositeParsingFormat.java:99-131 | nothing is pushed at whitespace; with no name at the cursor and `acceptAll` unset it throws `FormatParsingException`; otherwise the longest matching name's format, else the default, is pushed, and without either `deal` throws `NullPointerException` |
| CompositeFormat.Dealt | feature-pack-api/src/main/java/org/jboss/provisioning/util/formatparser/formats/CompositeParsingFormat.java:99-131 | a pushed format is the default or a registered element's; `FormatParsingException` only when `acceptAll` is unset; `NullPointerException` only without a default format |
| CompositeFormat.CompositeParsingFormat.RejectsUnaccepted | feature-pack-api/src/main/java/org/jboss/provisioning/util/formatparser/formats/CompositeParsingFormat.java:94-131 | at a non-whitespace cursor `deal` rejects the element exactly when no element `isAcceptsElement` accepts starts there |
| CompositeFormat.DealtCorrected | feature-pack-api/src/main/java/org/jboss/provisioning/util/formatparser/formats/CompositeParsingFormat.java:115-130 | as intended, every failure of `deal` is a `FormatParsingException` |
| CompositeFormat.CorrectedAgrees | feature-pack-api/src/main/java/org/jboss/provisioning/util/formatparser/formats/CompositeParsingFormat.java:115-130 | the corrected `deal` differs from the code only where the code throws `NullPointerException` |
| CompositeFormat.AcceptAllWithoutDefault | feature-pack-api/src/main/java/org/jboss/provisioning/util/formatparser/formats/CompositeParsingFormat.java:116-128 | a format accepting every element, with no default and nothing registered, throws `NullPointerException` at `x` where a `FormatParsingException` is intended |
| CompositeFormat.MatchedWithoutFormat | feature-pack-api/src/main/java/org/jboss/provisioning/util/formatparser/formats/CompositeParsingFormat.java:123-128 | an element registered without a value format, in a format with no default, makes `deal` throw `NullPointerException` at that element where a `FormatParsingException` is intended |
| CompositeFormat.ElementFormat | feature-pack-api/src/main/java/org/jboss/provisioning/util/formatparser/formats/CompositeParsingFormat.java:75-86 | the stored format is the value format if given, else the default one, wrapped with the separator; `null` only when both are missing |
| CompositeFormat.CompositeParsingFormat.constructor | feature-pack-api/src/main/java/org/jboss/provisioning/util/formatparser/formats/CompositeParsingFormat.java:44-51 | a new format has its name, no separator, `acceptAll` unset, no default and no elements |
| CompositeFormat.CompositeParsingFormat.SetAcceptAll | feature-pack-api/src/main/java/org/jboss/provisioning/util/formatparser/formats/CompositeParsingFormat.java:57-60 | only `acceptAll` changes |
| CompositeFormat.CompositeParsingFormat.SetDefaultValueFormat | feature-pack-api/src/main/java/org/jboss/provisioning/util/formatparser/formats/CompositeParsingFormat.java:62-69 | the default becomes the format wrapped with the separator set so far |
| CompositeFormat.CompositeParsingFormat.AddElement | feature-pack-api/src/main/java/org/jboss/provisioning/util/formatparser/formats/CompositeParsingFormat.java:75-86 | the name is registered with its stored format, replacing an earlier registration; nothing else changes |
| CompositeFormat.CompositeParsingFormat.AddDefaultElement | feature-pack-api/src/main/java/org/jboss/provisioning/util/formatparser/formats/CompositeParsingFormat.java:71-73 | the name is registered with the default value format |
| CompositeFormat.CompositeParsingFormat.SetNameValueSeparator | feature-pack-api/src/main/java/org/jboss/provisioning/util/formatparser/formats/CompositeParsingFormat.java:88-91 | only the separator changes |
| CompositeFormat.CompositeParsingFormat.Deal | feature-pack-api/src/main/java/org/jboss/provisioning/util/formatparser/formats/CompositeParsingFormat.java:98-131 | the loop and the choice of format give what `Dealt` gives, including both `NullPointerException` cases |
| CompositeFormat.NewInstance | feature-pack-api/src/main/java/org/jboss/provisioning/util/formatparser/formats/CompositeParsingFormat.java:36-42 | a `null` name stands for the object format's name; the content type is always the object format's name |
| FeatureBuilder.ConfigTexts | feature-pack-api/src/main/java/org/jboss/provisioning/xml/ProvisionedFeatureBuilder.java:60-68 | the configuration values have the same names as the resolved values, each the text of its resolved value |
| FeatureBuilder.FromIdState | feature-pack-api/src/main/java/org/jboss/provisioning/xml/ProvisionedFeatureBuilder.java:39-41 | a builder made from an id has that id and spec, no id builder, the id's parameters as resolved values and their texts as configuration values; an id without parameters throws `NoSuchElementException` |
| FeatureBuilder.FromSpecState | feature-pack-api/src/main/java/org/jboss/provisioning/xml/ProvisionedFeatureBuilder.java:43-45 | a builder made from a spec has no id, an empty id builder for the spec and no parameters |
| FeatureBuilder.SetParamSetsBoth | feature-pack-api/src/main/java/org/jboss/provisioning/xml/ProvisionedFeatureBuilder.java:95-99 | `setParam` sets both values of the named parameter and leaves every other parameter as it was |
| FeatureBuilder.ConfigParamKeepsResolved | feature-pack-api/src/main/java/org/jboss/provisioning/xml/ProvisionedFeatureBuilder.java:79-82 | `setConfigParam` changes neither the resolved values nor the parameter names |
| FeatureBuilder.IdParamNeedsIdBuilder | feature-pack-api/src/main/java/org/jboss/provisioning/xml/ProvisionedFeatureBuilder.java:111-127 | a builder made from an id refuses id parameters with `IllegalStateException`; one made from a spec records them |
| FeatureBuilder.IdParamRecordsThrice | feature-pack-api/src/main/java/org/jboss/provisioning/xml/ProvisionedFeatureBuilder.java:111-127 | an id parameter lands in the id builder, the resolved values and the configuration values, and nothing else changes |
| FeatureBuilder.BuildOnce | feature-pack-api/src/main/java/org/jboss/provisioning/xml/ProvisionedFeatureBuilder.java:136-148 | after `build` there is an id whenever there was an id or an id builder, the id builder is gone, a second `build` changes nothing and id parameters are refused |
| FeatureBuilder.EqualsIgnoresIdBuilder | feature-pack-api/src/main/java/org/jboss/provisioning/xml/ProvisionedFeatureBuilder.java:202-231 | `equals` does not compare the id builder, so a builder with its id set equals what `build` makes of it |
| FeatureBuilder.SameFeatureTwoWays | feature-pack-api/src/main/java/org/jboss/provisioning/xml/ProvisionedFeatureBuilder.java:39-45 | a feature built from its spec with one string id parameter equals the feature built from the id holding that value |
| FeatureBuilder.ProvisionedFeatureBuilder.ForSpec | feature-pack-api/src/main/java/org/jboss/provisioning/xml/ProvisionedFeatureBuilder.java:43-45 | the new builder is the one made from the spec |
| FeatureBuilder.ProvisionedFeatureBuilder.ForId | feature-pack-api/src/main/java/org/jboss/provisioning/xml/ProvisionedFeatureBuilder.java:55-74 | the new builder, filled entry by entry or as a singleton, is the one made from the id |
| FeatureBuilder.ProvisionedFeatureBuilder.SetConfigParam | feature-pack-api/src/main/java/org/jboss/provisioning/xml/ProvisionedFeatureBuilder.java:79-82 | only the named configuration value changes |
| FeatureBuilder.ProvisionedFeatureBuilder.SetResolvedParam | feature-pack-api/src/main/java/org/jboss/provisioning/xml/ProvisionedFeatureBuilder.java:87-90 | only the named resolved value changes |
| FeatureBuilder.ProvisionedFeatureBuilder.SetParam | feature-pack-api/src/main/java/org/jboss/provisioning/xml/ProvisionedFeatureBuilder.java:95-99 | both values of the named parameter change |
| FeatureBuilder.ProvisionedFeatureBuilder.SetParamValue | feature-pack-api/src/main/java/org/jboss/provisioning/xml/ProvisionedFeatureBuilder.java:104-106 | the string is both the configuration and the resolved value |
| FeatureBuilder.ProvisionedFeatureBuilder.SetIdParam | feature-pack-api/src/main/java/org/jboss/provisioning/xml/ProvisionedFeatureBuilder.java:111-118 | without an id builder it throws `IllegalStateException` and changes nothing; otherwise the id builder and the resolved values get the parameter |
| FeatureBuilder.ProvisionedFeatureBuilder.SetIdParamConfig | feature-pack-api/src/main/java/org/jboss/provisioning/xml/ProvisionedFeatureBuilder.java:123-127 | the id parameter, then its configuration value; unchanged on the exception |
| FeatureBuilder.ProvisionedFeatureBuilder.SetIdParamValue | feature-pack-api/src/main/java/org/jboss/provisioning/xml/ProvisionedFeatureBuilder.java:132-134 | the string is the id parameter's configuration and resolved value |
| FeatureBuilder.ProvisionedFeatureBuilder.Build | feature-pack-api/src/main/java/org/jboss/provisioning/xml/ProvisionedFeatureBuilder.java:136-148 | the id is made once from the id builder, which is dropped |
| FeatureBuilder.BuilderForId | feature-pack-api/src/main/java/org/jboss/provisioning/xml/ProvisionedFeatureBuilder.java:39-41 | a fresh builder made from the id, or `NoSuchElementException` for an id without parameters |
| FeatureBuilder.BuilderForSpec | feature-pack-api/src/main/java/org/jboss/provisioning/xml/ProvisionedFeatureBuilder.java:43-45 | a fresh builder made from the spec |
| XmlTree.SuffixFrame | feature-pack-api/src/main/java/org/jboss/provisioning/xml/BaseXmlWriter.java:42-48 | a node's tree depends only on the nodes created from it on, since children are created after their parent |
| XmlTree.TreeOf | feature-pack-api/src/main/java/org/jboss/provisioning/xml/BaseXmlWriter.java:42-48 | a node whose children stand for some trees stands for the element with those children |
| XmlTree.KeepTrees | feature-pack-api/src/main/java/org/jboss/provisioning/xml/BaseXmlWriter.java:42-48 | adding nodes and changing only earlier ones leaves the tree of every later node unchanged |
| XmlTree.AppendChildTrees | feature-pack-api/src/main/java/org/jboss/provisioning/xml/BaseXmlWriter.java:44-46 | children appended to a node keep the trees of the children it already had |
| XmlTree.NewDetachedNode | feature-pack-api/src/main/java/org/jboss/provisioning/xml/BaseXmlWriter.java:42-48 | `addElement(null, ...)` makes a childless, attribute-less node without a parent, and every existing tree is unchanged |
| XmlTree.NewChildIsLast | feature-pack-api/src/main/java/org/jboss/provisioning/xml/BaseXmlWriter.java:42-48 | `addElement(parent, ...)` appends the new node as the parent's last child, and the parent's tree gains exactly that leaf |
| XmlTree.AttributeOnItsElement | feature-pack-api/src/main/java/org/jboss/provisioning/xml/BaseXmlWriter.java:54-56 | `addAttribute` stores the value under the name on that element only; every other node is unchanged |
| XmlTree.AddElementNs | feature-pack-api/src/main/java/org/jboss/provisioning/xml/BaseXmlWriter.java:42-48 | the new node comes last and the nodes become what creating it gives |
| XmlTree.AddElement | feature-pack-api/src/main/java/org/jboss/provisioning/xml/BaseXmlWriter.java:38-40 | the same, with the provider's local name and namespace |
| XmlTree.AddAttributeNamed | feature-pack-api/src/main/java/org/jboss/provisioning/xml/BaseXmlWriter.java:54-56 | the node gets the attribute, as `WithAttribute` gives |
| XmlTree.AddAttribute | feature-pack-api/src/main/java/org/jboss/provisioning/xml/BaseXmlWriter.java:50-52 | the same, with the provider's local name |
| XmlTree.AddTree | feature-pack-api/src/main/java/org/jboss/provisioning/xml/BaseXmlWriter.java:42-48 | a copy of an element tree is appended under a parent; its root stands for that tree and no earlier node changes except the parent's child list |
| XmlTree.AddTrees | feature-pack-api/src/main/java/org/jboss/provisioning/xml/BaseXmlWriter.java:42-48 | copies of several trees are appended under a parent, in order, each standing for its tree |
| StateXml.FpAttributes | feature-pack-api/src/main/java/org/jboss/provisioning/xml/ProvisionedStateXmlWriter.java:70-74 | the attributes form a valid ordered map |
| StateXml.FpElements | feature-pack-api/src/main/java/org/jboss/provisioning/xml/ProvisionedStateXmlWriter.java:54-57 | one `feature-pack` element per feature-pack, in order |
| StateXml.StateShape | feature-pack-api/src/main/java/org/jboss/provisioning/xml/ProvisionedStateXmlWriter.java:51-58 | the root is `installation` without attributes, with one `feature-pack` child per feature-pack in order and none when there are none; configurations make no difference |
| StateXml.FpShape | feature-pack-api/src/main/java/org/jboss/provisioning/xml/ProvisionedStateXmlWriter.java:69-83 | a `feature-pack` element carries group and artifact, the version exactly when there is one, and a `packages` child exactly when there are packages, naming each package in order |
| StateXml.ReadNamesInverse | feature-pack-api/src/main/java/org/jboss/provisioning/xml/ProvisionedStateXmlWriter.java:76-82 | reading the `package` elements back gives the package names, in order |
| StateXml.ReadFpInverse | feature-pack-api/src/main/java/org/jboss/provisioning/xml/ProvisionedStateXmlWriter.java:69-83 | reading a `feature-pack` element back gives its feature-pack |
| StateXml.ReadFpsInverse | feature-pack-api/src/main/java/org/jboss/provisioning/xml/ProvisionedStateXmlWriter.java:53-58 | reading the `feature-pack` elements back gives the feature-packs, in order |
| StateXml.WrittenStateReadsBack | feature-pack-api/src/main/java/org/jboss/provisioning/xml/ProvisionedStateXmlWriter.java:49-67 | the written tree reads back to the same feature-packs, coordinates and package names, in the same order |
| StateXml.Write | feature-pack-api/src/main/java/org/jboss/provisioning/xml/ProvisionedStateXmlWriter.java:49-67 | the tree that would be marshalled is the state's element tree |
| StateXml.WriteFeaturePacks | feature-pack-api/src/main/java/org/jboss/provisioning/xml/ProvisionedStateXmlWriter.java:53-58 | the root's children stand, in order, for the feature-packs |
| StateXml.RootTree | feature-pack-api/src/main/java/org/jboss/provisioning/xml/ProvisionedStateXmlWriter.java:51-64 | the root node, whose children are the written feature-pack nodes, stands for the state's tree |
| StateXml.AddFeaturePack | feature-pack-api/src/main/java/org/jboss/provisioning/xml/ProvisionedStateXmlWriter.java:55-56 | one `feature-pack` node is attached to the root and stands for its feature-pack; no other node changes except the root's child list |
| StateXml.WriteFeaturePack | feature-pack-api/src/main/java/org/jboss/provisioning/xml/ProvisionedStateXmlWriter.java:69-83 | the filled node stands for the feature-pack's element, and the nodes before it are unchanged |
| StateXml.WriteCoords | feature-pack-api/src/main/java/org/jboss/provisioning/xml/ProvisionedStateXmlWriter.java:70-74 | only the node's attributes change, to the coordinate attributes |
| StateXml.PutName | feature-pack-api/src/main/java/org/jboss/provisioning/xml/ProvisionedStateXmlWriter.java:80 | a `package` element's attributes are those that adding the name to none gives |
| StateXml.PutCoords | feature-pack-api/src/main/java/org/jboss/provisioning/xml/ProvisionedStateXmlWriter.java:70-74 | the coordinate attributes are those that adding group, artifact and optional version to none gives, in that order |
| StateXml.WritePackages | feature-pack-api/src/main/java/org/jboss/provisioning/xml/ProvisionedStateXmlWriter.java:76-82 | the `packages` node stands for the element listing the package names, in order |
| StateXml.AddPackage | feature-pack-api/src/main/java/org/jboss/provisioning/xml/ProvisionedStateXmlWriter.java:79-80 | one `package` node naming the package is attached as the last child; no other node changes except the parent's child list |
| ConfigXml.ConfigAttributes | feature-pack-api/src/main/java/org/jboss/provisioning/xml/ConfigXmlWriter.java:47-52 | the attributes form a valid ordered map |
| ConfigXml.PropElements | feature-pack-api/src/main/java/org/jboss/provisioning/xml/ConfigXmlWriter.java:56-60 | one `prop` element per property, in map order, with its name and value |
| ConfigXml.ConfigRoot | feature-pack-api/src/main/java/org/jboss/provisioning/xml/ConfigXmlWriter.java:45-52 | the root is `config` in the given namespace, with a `name` attribute exactly when there is a name, a `model` attribute exactly when there is a model, and nothing else |
| ConfigXml.ConfigChildren | feature-pack-api/src/main/java/org/jboss/provisioning/xml/ConfigXmlWriter.java:54-67 | the children are a `props` element first exactly when there are properties, then the feature-group body, then a `packages` element exactly when there are package dependencies, in its name provider's namespace |
| ConfigXml.PropsReadBack | feature-pack-api/src/main/java/org/jboss/provisioning/xml/ConfigXmlWriter.java:54-61 | each property is one `prop` element in the namespace, and reading them back gives the properties in order |
| ConfigXml.ToElement | feature-pack-api/src/main/java/org/jboss/provisioning/xml/ConfigXmlWriter.java:41-43 | the tree is the configuration's element in the namespace of version 1.0 |
| ConfigXml.ToElementNs | feature-pack-api/src/main/java/org/jboss/provisioning/xml/ConfigXmlWriter.java:45-69 | the returned node stands for the configuration's element in the given namespace |
| ConfigXml.OpenConfig | feature-pack-api/src/main/java/org/jboss/provisioning/xml/ConfigXmlWriter.java:46-61 | the `config` node has the configuration's attributes and the `props` child exactly when there are properties |
| ConfigXml.AddPropsElement | feature-pack-api/src/main/java/org/jboss/provisioning/xml/ConfigXmlWriter.java:54-61 | one `props` node is attached and stands for the element listing the properties; no other node changes except the parent's child list |
| ConfigXml.AddPackagesElement | feature-pack-api/src/main/java/org/jboss/provisioning/xml/ConfigXmlWriter.java:65-67 | one `packages` node is attached and stands for the element holding the package writer's output |
| ConfigXml.WriteConfigAttributes | feature-pack-api/src/main/java/org/jboss/provisioning/xml/ConfigXmlWriter.java:47-52 | only the node's attributes change, to the name and model attributes |
| ConfigXml.WriteProps | feature-pack-api/src/main/java/org/jboss/provisioning/xml/ConfigXmlWriter.java:56-60 | the `props` node stands for the element listing the properties, in order, and the nodes before it are unchanged |
| ConfigXml.AddProp | feature-pack-api/src/main/java/org/jboss/provisioning/xml/ConfigXmlWriter.java:57-59 | one `prop` node with the name and the value is attached as the last child |
| ConfigXml.PutProp | feature-pack-api/src/main/java/org/jboss/provisioning/xml/ConfigXmlWriter.java:58-59 | a `prop` element's attributes are those that adding the name and then the value to none gives |

## Left out

- Artifact resolution, unzipping, the spec describer, resource copying and directory removal in `ProvisioningTask` are I/O. The repository is an input map from coordinates to the fetched spec, or to a failure.
- `FeaturePackConfig.Builder` (`merge`, `enforce`, `build`) is not part of this model. Its results are uninterpreted terms that record which operations were applied, and the `ProvisioningDescriptionException` its `merge` can throw is not modelled.
- ProvisioningTask.Task.Execute: `ProvisionedStateResolver.resolve`, the removal and creation of the installation directory and `FeaturePackLayoutInstaller.install` are not part of this model, and neither are their failures or those of `ProvisioningConfig.Builder`. `ExecuteOutcome` covers layout, enforcement, the extended config and the plugins.
- `ProvisioningTask.Laid`: the JVM stack depth is a parameter, so a cycle among feature-pack dependencies ends with a stack-overflow failure and does not loop forever.
- ProvisioningTask: the state a failed layout leaves behind is not specified, because every failure aborts the whole run.
- ProvisioningTask.RegisteredGrows, LaidGrows, LaidOutGrows, LaidAllGrows, LaidAllRegisters, ConflictAfterLaid and SelfDependencyOverflows hold only for a repository that is `Consistent`: every spec it describes carries the coordinates it was fetched under. The describer reads the spec from the unzipped artifact, so the source does not check this.
- ProvisioningTask.Registered: `FeaturePackLayoutDescription.Builder` is not part of this model. `addFeaturePack` registers the spec under its own GA. The `ProvisioningDescriptionException` it can throw, which the source wraps as "Failed to layout feature packs", is not modelled.
- Plugin loading through class loaders and the service loader is left out. The loaded plugins are an input list of outcomes.
- The text form of `ArtifactCoords.Gav` and `Ga` is not shown. It is taken to be `group:artifact:version` and `group:artifact`.
- `WfProvisionedConfigHandler` has I/O that is left out. Running the CLI script and writing or deleting the operations file are not modelled; the file is a sequence of lines. `messageWriter` logging is not modelled either.
- `WfConstants` and `Constants.PM_UNDEFINED` are not shown. Their values are assumed.
- WfHandler.Handler.NextSpec: after a translation that throws, the operation count and the states of the operation slots are not specified. The source leaves `opsTotal` partly updated and the slots partly translated.
- WfHandler: an annotation element is absent or a text. The source's `getElem(OP_PARAMS, PM_UNDEFINED)` can also return a present `null`, for which it uses an empty parameter list. That case is not modelled, and an absent `op-params` is read as `PM_UNDEFINED`.
- WfHandler.SpecError: only the exception kind is modelled for each failure of `nextSpec`. The messages the source builds for them are not.
- Errors.VersionConflictOrder: only for versions whose texts have the same length. `VersionConflictAmbiguous` shows that, for versions of different lengths, the conflict text does not tell the order apart.
- WfParsing.ToFailure: the message of the JDK's index exception for `substring(-1, 0)` is not modelled, only its kind.
- `hashCode` and `toString` are left out throughout, apart from `ConfigRef.toString`. So are the `getClass` checks of `equals`.
- PackageDepsSpec: `PackageDependencySpec` is not part of this model. A dependency is taken to be its package name and whether it is optional, compared field by field.
- FpDescription.FpWithDeps: the equality of the superclass description is taken to be field-wise.
- ConfigRef: `SchemaPath` is a list of names. The identity of the array `getFeatureId` returns is not modelled, because values have no identity.
- CompositeFormat: `ParsingContext` is the input text and a cursor. `ObjectParsingFormat.NAME` is assumed to be `Object`. `FormatErrors` is not part of this model, so its messages are not modelled. `toString`, `hashCode` and `equals` are left out, except that `deal` throws `NullPointerException` where its message renders the format.
- CompositeFormat.Dealt: with no element at the cursor and `acceptAll` unset, the model throws `FormatParsingException`. If `FormatErrors.unexpectedCompositeFormatElement` renders the format, and some element has no value format, the source throws `NullPointerException` there instead.
- CompositeFormat.CompositeParsingFormat.Deal: the iteration order of the element map is its insertion order. `MatchOrderFree` shows that the result does not depend on it.
- FeatureBuilder.ProvisionedFeatureBuilder.ForId requires an id with parameters. `FeatureBuilder.BuilderForId` models the `NoSuchElementException` for the other case.
- FeatureBuilder: `ResolvedFeatureId.Builder` is not part of this model. Its `build` is taken to make the id from the parameters set.
- Hash maps and sets are unordered maps and sets; linked maps and lists keep their order. Switches between the empty, singleton and hash collections are not modelled as such: a builder's collection is a value, and each `build` returns a snapshot of it.
- FpDescription.Builder.Build: with two or more dependencies, the source's description wraps the builder's own map in an unmodifiable view, so a later `addDependency` on the builder shows through the built description. The excluded and included package sets are wrapped the same way. The model returns a snapshot and does not capture this aliasing.
- PackageScripts.ScriptBuilder.Build: with two or more parameters, the source's script wraps the builder's own parameter map, so a later `addParameter` shows through the built script. The model returns a snapshot.
- PackageScripts.Builder.Build: with two or more scripts in a list, the source's `PackageScripts` wraps the builder's own list, so a later `add*` call shows through. The model returns a snapshot.
- The XML element and attribute names and the namespaces of `ProvisionedStateXmlParser10` and `ConfigXml` are not shown. Their texts are assumed.
- `ElementNode` objects are modelled as indices into a document of nodes, with their attributes kept in insertion order. Marshalling, `ensureParentDir` and writing the output file are left out.
- ConfigXml: what `FeatureGroupXmlWriter.writeFeatureGroupSpecBody` and `PackageXmlWriter.writePackageDeps` add is an input (`Bodies`). Those writers are not part of this model.
- ConfigXml: `ConfigXmlWriter` extends a generic `BaseXmlWriter`, while the `BaseXmlWriter` shown is not generic. Both are modelled against the code as written.
- The `Path`-based messages of `Errors` depend on the file system and are left out.

## Findings

| source | as written | input that shows it | evidently intended | confidence | as-written member | corrected member |
|---|---|---|---|---|---|---|
| feature-pack-api/src/main/java/org/jboss/provisioning/util/formatparser/formats/CompositeParsingFormat.java:116-128 | with no element name at the cursor, `acceptAll` set and no default value format, the error message dereferences the missing match, so `deal` throws `NullPointerException` | a format with `acceptAll` set, no default value format and no elements, dealing the input `x` at position 0 | a `FormatParsingException` saying the element has no value format | not executed | CompositeFormat.AcceptAllWithoutDefault | CompositeFormat.DealtCorrected |
| feature-pack-api/src/main/java/org/jboss/provisioning/util/formatparser/formats/CompositeParsingFormat.java:123-128 | an element registered without a value format, in a format without a default value format, matches; building the message calls `toString`, which reads the missing value format, so `deal` throws `NullPointerException` | a format with no default value format and the single element `x` added without a value format, dealing the input `x` at position 0 | a `FormatParsingException` saying element `x` has no value format | not executed | CompositeFormat.MatchedWithoutFormat | CompositeFormat.DealtCorrected |
