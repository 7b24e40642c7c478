# Verified models of the manifest tools

The repository is a collection of Kubernetes manifests with a handful of tools around it. This
project models the tools that carry logic and proves what they are relied on for. One module
stands for one tool, or for one part of it:

| module | what it models |
|---|---|
| `PodsValidator`, `DefaultTemplates` | the script that crosses pod name templates off a list and exits with the number left |
| `KfParse` | the extraction of image references from JSON whose strings may again hold JSON or YAML |
| `ImageReference`, `ImageList`, `KustomizeDirs` | the maintenance of the `images` lists of kustomizations: splitting references, updating the list in place, finding the directories |
| `CommonLabels` | the fixer that removes mutable common labels and the test that looks for them |
| `PosixPaths`, `LegacyKustomizations`, `GenerateTests` | the paths both test generators write, on the level of strings and `os.path` |
| `ParamFiles` | the renumbering and copying of the parameter files of configmap generators |
| `ProfileController`, `Reconciliation` | the `sync` webhook of the pipelines profile controller, and Metacontroller's steps around it |
| `LdapGroups` | the LDAP group filter built from a `::::`-separated list |

Code that changes things step by step is a method or a class with fields that the methods
reassign; each such method is proved against a specification function, and the properties are
lemmas about that function. Exceptions are values: a method returns `Crash`, `Raised`, `None` or
`false` where the original raises. `dafny verify dfyconfig.toml` checks everything.

## Results that are not what one might expect

- The pod script's loop is a maximum matching exactly when no template stands before a longer one
  that it prefixes (`MaximumExactlyWhenSpecificFirst`); its own list has this order.
- Looking for the word `image` before decoding embedded text is not only a speed-up. It changes the
  result exactly when the walk comes to a text without the word whose content yields something
  (`GuardOnlySavesWork`): a key written with an escape, and also a plain key inside a text that is
  itself escaped in another (`GuardMissesEscapedKeys`, `GuardMissesEscapedValues`). Over texts that
  write the word literally it changes nothing (`LiteralTextsAreSafe`).
- `daemonSet` in the accepted kinds never equals a lower-cased kind, so DaemonSets are not scanned
  (`DaemonSetsAreSkipped`).
- A digest in a reference without any colon gets `:latest` appended to it (`ReferenceFields`).
- A reference that ends in `@` cannot be rebuilt from its fields (`RenderInvertsParsing`).
- A plain file named `tests`, `.git` or `.github` in the root ends both label walks there, because
  SkipDir answered for a file skips the rest of its directory (`VisitedAreOpen`).
- The legacy generator's check that the test path starts with the repository root compares strings.
  It also lets through a sibling whose name extends the root's, and any path when the root is `/`;
  exactly there the rewritten paths are wrong (`RewrittenPathsAreRight`, `SiblingPassesTheGuard`).
- `generate_tests.py` would write a wrong path for a kustomization at the repository root itself
  (`PackageDirIsRight`, `RootPackageIsMissed`); its search directories do not contain one.
- A parameter file is not always copied as it was: a source that is the place of an earlier copy has
  been overwritten by then, and exactly such lists can lose content (`OriginalsExactly`).
- The LDAP filter is put together without escaping. Entries without a first component give a text
  that is no OR filter (`EmptyPartsAreNoFilter`); with proper first components it reads back as
  exactly these (`FilterReadsBack`).
- The comment that all LDAP groups are verified to share a base DN is not what the code does: it
  takes the first one that is not `none` (`BaseIsFirst`).
- Readiness of a namespace does not see Role and RoleBinding (`ReadyIgnoresRoles`).

## Assumptions

- `KfParse.Library`: a string inside decoded JSON is shorter than the text it was decoded from
  (section 7 of RFC 8259), and the YAML expression matches only text that contains `image`.
- `CommonLabels.Yaml`: a printed kustomization reads back with the same common labels and the same rest.
- `Reconciliation`: Metacontroller creates missing children, deletes extra ones, and replaces drifted
  ones of the kinds with an in-place update strategy, one at a time and in any order. The set of such
  kinds is a parameter; `composite-controller.yaml` lists Secrets and ConfigMaps as not among them.

## Model

| member | source | states |
|---|---|---|
| PodsValidator.Validator.Validate | utils/pods-validator.py:49-64 | over the concatenated namespaces the script leaves exactly the templates the specification leaves and exits with their number; it raises exactly when a running pod has no container status |
| PodsValidator.Validator.CrossOff | utils/pods-validator.py:59-62 | one pod removes the first remaining template that prefixes its name and nothing else |
| PodsValidator.FirstMatchIsLongest | utils/pods-validator.py:29-34 | in a specific-first list, every template that fits a pod is a prefix of the one the pod takes |
| PodsValidator.ServeCommutes | utils/pods-validator.py:55-62 | two pods served one after the other leave the same list in either order |
| PodsValidator.OrderIndependent | utils/pods-validator.py:55-62 | for every specific-first list the templates left are the same for every permutation of the healthy pods |
| PodsValidator.OrderIrrelevantExactlyWhenSpecificFirst | utils/pods-validator.py:4-64 | the templates left are the same for all orders of all pods if and only if the list is specific-first |
| PodsValidator.PodOrderIrrelevant | utils/pods-validator.py:49-64 | the same for the pods as listed, including whether the script raises; so the order of the namespaces is irrelevant |
| PodsValidator.OneMorePod | utils/pods-validator.py:55-64 | one more healthy pod anywhere in the list lowers the exit code by 0 or 1 |
| PodsValidator.GreedyMatching | utils/pods-validator.py:55-62 | the templates crossed off are a matching of distinct pods to templates that prefix their names, of the size the script reports |
| PodsValidator.Exchange | utils/pods-validator.py:57-62 | exchange step: any matching of all pods gives one of the other pods, at most one smaller, that avoids the template the first pod takes |
| PodsValidator.GreedyIsMaximum | utils/pods-validator.py:55-64 | for every specific-first list and all pods, no matching serves more templates than the loop crosses off |
| PodsValidator.MaximumExactlyWhenSpecificFirst | utils/pods-validator.py:4-64 | the loop is maximum for all pods if and only if the list is specific-first |
| PodsValidator.MisplacedPair | utils/pods-validator.py:29-34 | a template before a longer one that it prefixes gives pods that could serve the whole list but leave a template over |
| PodsValidator.ExitZeroMeansAllServed | utils/pods-validator.py:64 | the exit code is 0 exactly when distinct pods can serve all templates |
| PodsValidator.ScriptLeavesFewest | utils/pods-validator.py:49-64 | in terms of the pods alone, for every specific-first list: the script raises exactly when a running pod has no container status; otherwise it leaves as few templates as any assignment that gives a pod only prefixes of its name, and only if the pod has succeeded or runs with its first container ready |
| PodsValidator.PodsInTurn | utils/pods-validator.py:55-62 | for any template list the script is the succession of its pods in the listed order |
| PodsValidator.OnePod | utils/pods-validator.py:57-62 | a succeeded or ready pod takes the first template that prefixes its name, any other pod takes none |
| PodsValidator.StatusIs | utils/pods-validator.py:64 | the process status is 1 when the script raises and else the low byte of the smallest number of templates any such assignment leaves; below 256 templates it is 0 exactly when all can be given out |
| DefaultTemplates.DefaultTemplatesSpecificFirst | utils/pods-validator.py:4-44 | the 39 templates are distinct and specific-first |
| DefaultTemplates.SuccessMeansAllServed | utils/pods-validator.py:4-64 | for the script's own list the status is 0 exactly when no running pod lacks a container status and all 39 templates can be given to different succeeded or ready pods whose names they prefix |
| DefaultTemplates.Run | utils/pods-validator.py:4-64 | the whole script over three namespaces has that status |
| KfParse.ExtractImagesRecursively | utils/kf_parse.py:70-100 | terminates on every value, by a measure over string lengths and structure, and returns the images of the traversal or raises exactly when it meets a raising position |
| KfParse.ParseJsonImages | utils/kf_parse.py:32-49 | the same for embedded text: guarded by the word, decoded if it parses to a dict, else the YAML fallback |
| KfParse.ConcatImageNameWithTag | utils/kf_parse.py:52-67 | a value with a colon is returned alone; otherwise the value, a colon and the version under `defaultImageVersion`, then the same for `defaultGpuImageVersion`, each exactly when the dict has an entry with that key |
| KfParse.TraceEnumerates | utils/kf_parse.py:70-100 | the traversal lists exactly the visited positions, given by a separate definition along paths, once each and in document order, with what each yields |
| KfParse.EnumerationIsUnique | utils/kf_parse.py:70-100 | a sorted list of those positions is unique, so the definition along paths determines the result |
| KfParse.RaisesExactlyAtPositions | utils/kf_parse.py:59-100 | the extraction raises a TypeError exactly when an `image` entry of a second-level dict is neither text nor a dict at some visited position |
| KfParse.ImagesAreTagged | utils/kf_parse.py:52-67 | every image found at any depth contains a colon unless it comes from the YAML fallback |
| KfParse.ImageEntryYields | utils/kf_parse.py:86-90 | an `image` text of a dict yields exactly its names tagged with the versions of that dict |
| KfParse.InnerImageEntryYields | utils/kf_parse.py:80-83 | an `image` text of a second-level dict yields its names tagged with the versions of the inner dict |
| KfParse.WaysFromEntry | utils/kf_parse.py:76-98 | from an entry the search goes on into list elements and into decoded text under other keys that contains the word, and nowhere else but into a dict |
| KfParse.WaysFromInner | utils/kf_parse.py:79-85 | from an entry of a second-level dict it goes on into dicts and decoded text but not into lists; an `image` there that is neither is a TypeError |
| KfParse.YamlTextYields | utils/kf_parse.py:41-48 | text with the word that does not parse yields what the YAML expression finds, or nothing |
| KfParse.OnlyDictsYield | utils/kf_parse.py:73-74 | a value that is no dict yields nothing, so lists inside lists and decoded lists are not searched |
| KfParse.TestHidesLost | utils/kf_parse.py:34-47 | position by position: the test hides exactly the lost positions and changes no other |
| KfParse.GuardOnlySavesWork | utils/kf_parse.py:34-47 | the word test leaves the whole recursive extraction as it is if and only if no position is lost: one whose way down comes to a text without the word, with something found below it |
| KfParse.LiteralTextsAreSafe | utils/kf_parse.py:34-47 | over a class of texts that write the word out, nothing is lost and the extraction is the same without the test |
| KfParse.GuardMissesEscapedKeys | utils/kf_parse.py:34-40 | a concrete text whose escaped `image` key is lost by the test |
| KfParse.GuardMissesEscapedValues | utils/kf_parse.py:34-40 | unescaped keys are not enough: a key written out in a text is lost when the text around it escapes that text |
| KfParse.ProcessJsonFile | utils/kf_parse.py:103-115 | the printed names are the extracted ones, each once, in the order of first occurrence; none for a file that does not parse |
| ImageReference.RSplitIsUnique | tests/scripts/extract_images.py:31-34 | splitting at the last separator inverts joining whenever the right piece lacks the separator |
| ImageReference.PiecesRejoin | tests/scripts/extract_images.py:22-37 | for every string the pieces joined with their separator give the normalised reference, and the right piece has no further separator |
| ImageReference.RenderInvertsParsing | tests/scripts/extract_images.py:22-37 | the fields alone give the normalised reference back exactly when it does not end in `@`; parsing the normalised reference gives the same fields |
| ImageReference.ReferenceFields | tests/scripts/extract_images.py:22-37 | the fields of each kind of reference: `latest` without a tag, the tag after the last colon, the digest after the last `@`, with `:latest` appended to it when there is no colon |
| ImageList.KustomizationImages.AppendOrUpdate | tests/scripts/extract_images.py:40-55 | the in-place update equals the specification, and a KeyError leaves the list unchanged |
| ImageList.KustomizationImages.ScanResource | tests/scripts/extract_images.py:90-104 | for a workload with containers it folds exactly their image texts, in order, into the list; in general it absorbs what the resource holds or raises |
| ImageList.WorkloadImages | tests/scripts/extract_images.py:90-104 | a mapping of one of the five kinds with a list of containers under spec, template, spec yields exactly the `image` texts of those containers in order |
| ImageList.OthersGiveNothing | tests/scripts/extract_images.py:88-97 | anything but a mapping, another kind or none, and a missing key on the way yield nothing |
| ImageList.BrokenWorkloadsRaise | tests/scripts/extract_images.py:94-101 | a way that leads through something else than mappings raises, and so does a container that is no mapping or whose image is no text |
| ImageList.OddContainers | tests/scripts/extract_images.py:95-98 | containers that are no list: an empty mapping or text yields nothing, anything else raises |
| ImageList.KustomizationImages.ScanResources | tests/scripts/extract_images.py:87-104 | the loops over resources and containers fold all their images into the list, in order |
| ImageList.ResourcesInOrder | tests/scripts/extract_images.py:87-104 | the images of all resources are those of the earlier ones followed by those of the later ones |
| ImageList.UpdateFails | tests/scripts/extract_images.py:41-42 | the KeyError occurs exactly when a nameless entry stands before every entry of the image's name |
| ImageList.UpdateRecord | tests/scripts/extract_images.py:40-55 | one image changes the first record of its own name only |
| ImageList.NewEntryIs | tests/scripts/extract_images.py:49-55 | the entry written for a new image, with a tag or digest only when not empty |
| ImageList.FoldFails | tests/scripts/extract_images.py:40-55 | a run over all images raises the KeyError if and only if the list as given has a nameless entry before every entry of the name of one of them |
| ImageList.FoldSucceeds | tests/scripts/extract_images.py:40-55 | so a list whose entries all have names takes any images |
| ImageList.FoldGrows | tests/scripts/extract_images.py:40-55 | prior entries keep their places and all their fields; appended entries have names not found before them |
| ImageList.DistinctNamesStay | tests/scripts/extract_images.py:40-55 | distinct names stay distinct |
| ImageList.FoldRecord | tests/scripts/extract_images.py:87-104 | for every name, the first record after all images is its prior record completed by the first non-empty tag and digest among the images of that name alone |
| ImageList.RecordFields | tests/scripts/extract_images.py:40-55 | field by field: prior values stay, a missing newName is the name, a missing tag or digest is the first non-empty one among the images of that name, and there are no other fields |
| ImageList.RescanIsNoOp | tests/scripts/extract_images.py:40-55 | folding any of the same images again, in any order, changes nothing |
| ImageList.ScanTwice | tests/scripts/extract_images.py:76-109 | scanning the same resources a second time leaves the list unchanged |
| ImageList.DaemonSetsAreSkipped | tests/scripts/extract_images.py:17-19 | `daemonSet` is never a lower-cased kind, so exactly the five other kinds are scanned |
| ImageList.LowerLetters | tests/scripts/extract_images.py:93 | kinds are compared after moving exactly the 26 capital letters |
| KustomizeDirs.Accumulator.Helper | tests/scripts/extract_images.py:124-133 | the helper appends to the shared list exactly what the search finds below its directory |
| KustomizeDirs.GetKustomizationDirs | tests/scripts/extract_images.py:122-137 | the result is what the search finds from the root: exactly the wanted directories, each once, in listing order; the recursion terminates on every tree |
| KustomizeDirs.PackagesAre | tests/scripts/extract_images.py:112-118 | a directory is a package exactly when its folders are base, or base and overlays in either order |
| KustomizeDirs.PackageDirsAre | tests/scripts/extract_images.py:112-119 | a package contributes exactly its base and the folders of its overlays |
| KustomizeDirs.DiscoverFindsWanted | tests/scripts/extract_images.py:112-137 | a path is found exactly when it is a base or overlay of a package with no package strictly above it and no excluded name on the way down |
| KustomizeDirs.DiscoverNoRepeats | tests/scripts/extract_images.py:112-137 | no path is found twice |
| KustomizeDirs.DiscoverIsOrdered | tests/scripts/extract_images.py:112-137 | a base stands before its overlays, and otherwise the order is that of the directory listings on the way down |
| CommonLabels.VisitedAreOpen | tests/tools/fix_common_labels.go:57-86 | the walk comes to a kustomization file exactly when its first name is not excluded and no excluded plain file precedes that name in the root |
| CommonLabels.Fixer.RemoveLabels | tests/tools/fix_common_labels.go:99-106 | deleting one by one leaves exactly the labels that are not forbidden, and the flag tells whether there were any |
| CommonLabels.Fixer.FixOne | tests/tools/fix_common_labels.go:88-116 | a visited file is fixed as specified, and the disk changes exactly when the file parses, has one of the four labels, can be printed without them and is writable |
| CommonLabels.FixFileRewrites | tests/tools/fix_common_labels.go:88-116 | a file changes exactly when it parses, has one of the four labels, can be printed without them and is writable; it then holds that print |
| CommonLabels.Fixer.WalkTree | tests/tools/fix_common_labels.go:66-117 | the walk fixes exactly the visited files, with the SkipDir answers of the walk |
| CommonLabels.Checker.CheckOne | tests/validate_resources_test.go:79-95 | a file is reported once if unreadable, else once per forbidden label it has, in order |
| CommonLabels.CheckSays | tests/validate_resources_test.go:79-95 | what is said about one file: unreadable, or each of the four labels it has, once and in this order |
| CommonLabels.Checker.WalkTree | tests/validate_resources_test.go:58-96 | the test's walk visits the same files and appends their reports |
| CommonLabels.FixFileIsMinimal | tests/tools/fix_common_labels.go:95-116 | a rewritten file keeps every other label with its value and the other fields of the typed struct, and needs no second rewrite |
| CommonLabels.FixAllIsPointwise | tests/tools/fix_common_labels.go:66-117 | each visited file changes as if alone; files not visited, and the set of files, do not change |
| CommonLabels.CheckerAfterFixer | tests/validate_resources_test.go:45-96 | after the fixer, the test reports a forbidden label exactly for visited files that had it and are not writable or cannot be printed without the labels |
| CommonLabels.TestPassesAfterFixer | tests/validate_resources_test.go:45-96 | the whole test passes after the fixer if and only if every visited kustomization can be read, parses, and, where it had a forbidden label, is writable and can be printed without it |
| CommonLabels.WritableTreesPass | tests/validate_resources_test.go:45-96 | with a printer that does not fail, every tree of readable, parsing and writable kustomizations passes the test after the fixer |
| CommonLabels.SecondRunWritesNothing | tests/tools/fix_common_labels.go:66-117 | a second run writes no file and leaves the tree as it is |
| PosixPaths.ResolveJoin | hack/generate_legacy_kustomizations.py:131-135 | for all strings, a joined path leads where its two pieces lead one after the other, absolute second pieces included |
| PosixPaths.RelPathLeadsThere | hack/generate_tests.py:142 | the relative path between any two locations leads from the one to the other |
| LegacyKustomizations.StringPrefix | hack/generate_legacy_kustomizations.py:90-93 | what the string comparison of two absolute paths says about the locations |
| LegacyKustomizations.RewrittenLeads | hack/generate_legacy_kustomizations.py:131-135 | a rewritten path leads where the joined application path leads from as many levels up |
| LegacyKustomizations.RewrittenText | hack/generate_legacy_kustomizations.py:131-135 | as text: the climbing dots, the application path and the entry one after the other; an absolute entry alone |
| LegacyKustomizations.ParentsAre | hack/generate_legacy_kustomizations.py:90-97 | the guard raises exactly for paths that do not start with the text of the root; at or below the root the count is one more than the names on the way |
| LegacyKustomizations.RewrittenPathsAreRight | hack/generate_legacy_kustomizations.py:90-137 | past the guard, all rewritten paths of all applications lead to their counterparts under the root if and only if the rest of the test path is empty or starts with a separator |
| LegacyKustomizations.SiblingPassesTheGuard | hack/generate_legacy_kustomizations.py:90-97 | a test path beside the repository root passes the guard and gets wrong paths |
| LegacyKustomizations.Kustomization.RewritePaths | hack/generate_legacy_kustomizations.py:127-137 | exactly the five path fields are replaced, entry by entry, by the rewritten path of the application; it raises exactly when one of them is null, holds an entry that is not text, or holds a path of an unknown application |
| GenerateTests.TestPathLeads | hack/generate_tests.py:40-42 | the test of a package lies at the package's own path below `tests` |
| GenerateTests.PackageDirIsRight | hack/generate_tests.py:163-168 | at every depth the generated path leads from the test's directory to the package, except for the repository root itself |
| GenerateTests.RootPackageIsMissed | hack/generate_tests.py:163-168 | for the repository root itself the path written leads elsewhere |
| ParamFiles.BuildConfigmapGenerators | hack/generate_legacy_kustomizations.py:63-72 | each name once, in the order of first occurrence, with the files of its last entry, the listed ones before the single one and each joined to the directory; an error exactly when some entry lacks a name or has a null list or file |
| ParamFiles.DecimalHasValue | hack/generate_legacy_kustomizations.py:157 | the decimal text of a number determines it |
| ParamFiles.NoLeadingZero | hack/generate_legacy_kustomizations.py:157 | and has no leading zero |
| ParamFiles.TargetLeads | hack/generate_legacy_kustomizations.py:157-159 | the path of a copy leads to the numbered file in the directory, however that is spelled |
| ParamFiles.TargetsDiffer | hack/generate_legacy_kustomizations.py:157-159 | the paths of copies with different indices lead to different files, whatever the directory and however spelled |
| ParamFiles.CopiesSurvive | hack/generate_legacy_kustomizations.py:156-161 | no copy overwrites another: every numbered file holds what its copy read, and nothing else changes, even if a source is itself a numbered file; files are told apart by location |
| ParamFiles.CopiesSucceed | hack/generate_legacy_kustomizations.py:156-161 | copying succeeds exactly when every source is there, at the start or as an earlier copy, and none is its own destination |
| ParamFiles.OriginalsExactly | hack/generate_legacy_kustomizations.py:147-163 | for a list that can be copied, all copies hold what their sources held at the start, on every disk, if and only if no source is the place of an earlier copy |
| ParamFiles.Generation.WriteGenerators | hack/generate_legacy_kustomizations.py:147-163 | the nested loops copy all files of all generators in order and name them consecutively, or fail at a missing source or a copy onto the same file, however spelled |
| ParamFiles.OutputsAre | hack/generate_legacy_kustomizations.py:147-163 | the written generators keep names and order, merge, and their files are `params_0.env`, `params_1.env` and so on through all of them |
| ParamFiles.AllocationIsLossless | hack/generate_legacy_kustomizations.py:147-163 | the k-th env file of each generator holds the content of its k-th source file, for every source that is not the place of an earlier copy |
| ParamFiles.AllocationIsInjective | hack/generate_legacy_kustomizations.py:147-163 | two env files have the same name only if they are the same file of the same generator |
| Reconciliation.StepKeepsOutcome | apps/pipeline/upstream/base/installs/multi-user/pipelines-profile-controller/composite-controller.yaml:5-34 | every step settles exactly one pending child and keeps the outcome the cluster is heading for |
| Reconciliation.RunsReachOutcome | apps/pipeline/upstream/base/installs/multi-user/pipelines-profile-controller/composite-controller.yaml:5-34 | every run ends after as many steps as children were pending, at an outcome that its start determines |
| Reconciliation.OutcomeIsDesired | apps/pipeline/upstream/base/installs/multi-user/pipelines-profile-controller/composite-controller.yaml:12-34 | the outcome is the desired set exactly when no child of a kind that is not updated in place has drifted |
| ProfileController.Controller.Respond | apps/pipeline/upstream/base/installs/multi-user/pipelines-profile-controller/sync.py:36-326 | the webhook's answer, with counts read only until one differs, is that of `AnswersAs` |
| ProfileController.AnswersAs | apps/pipeline/upstream/base/installs/multi-user/pipelines-profile-controller/sync.py:36-326 | without the label set to "true" the answer is empty; otherwise it is a KeyError when a group is not observed before a count differs, else the ten children, ready exactly when the six counts are right |
| ProfileController.DesiredAreChildren | apps/pipeline/upstream/base/installs/multi-user/pipelines-profile-controller/sync.py:57-324 | the ten children by kind and name: both services select the deployment of their name at its port, images come from the registry in the version set, the role binding names the role, and the Secret holds the five settings under their keys |
| ProfileController.DesiredAreDistinct | apps/pipeline/upstream/base/installs/multi-user/pipelines-profile-controller/sync.py:57-324 | the ten children have different kinds and names that depend on nothing, and all lie in the parent's namespace |
| ProfileController.WantedIsDesired | apps/pipeline/upstream/base/installs/multi-user/pipelines-profile-controller/sync.py:36-326 | the children asked for do not depend on the observed ones |
| ProfileController.DesiredCounts | apps/pipeline/upstream/base/installs/multi-user/pipelines-profile-controller/sync.py:45-52 | the desired children have exactly the six counts that readiness asks for |
| ProfileController.ReadyMeansPresent | apps/pipeline/upstream/base/installs/multi-user/pipelines-profile-controller/sync.py:44-53 | among desired children only, ready is "True" exactly when none of the counted kinds is missing (pigeonhole) |
| ProfileController.ReadyAlongRuns | apps/pipeline/upstream/base/installs/multi-user/pipelines-profile-controller/sync.py:44-53 | the same at every moment of every controlled run that starts with desired children only |
| ProfileController.ReadyIgnoresRoles | apps/pipeline/upstream/base/installs/multi-user/pipelines-profile-controller/sync.py:280-324 | clusters that differ only in Roles and RoleBindings have the same readiness |
| ProfileController.ControlledRunsEnd | apps/pipeline/upstream/base/installs/multi-user/pipelines-profile-controller/sync.py:36-326 | any run driven by the webhook ends; at its end an enabled namespace has the desired children and reports ready, any other has none |
| LdapGroups.SplitInvertsJoin | bootstrap/components/dex-secret-ldap/entrypoint.py:39-42 | groups come back from the text joined with `::::` if and only if none contains it and none before the last ends in a colon |
| LdapGroups.EntryParts | bootstrap/components/dex-secret-ldap/entrypoint.py:46-61 | the item is the text before the first comma, the base DN the text between the first two, missing when there is no comma |
| LdapGroups.SingleGroupConfigures | bootstrap/components/dex-secret-ldap/entrypoint.py:58-65 | a text without `::::` fails exactly without a comma; otherwise the text between the first two commas is the base DN and the text before them the filter, in parentheses and quotes, with an empty name attribute |
| LdapGroups.BaseIsFirst | bootstrap/components/dex-secret-ldap/entrypoint.py:37-49 | the base DN is that of the first entry whose second component is not `none`, else `none` |
| LdapGroups.FiltersAreUnambiguous | bootstrap/components/dex-secret-ldap/entrypoint.py:51-56 | the filter grammar (section 3 of RFC 4515: and, or, not, items) has at most one filter for each text |
| LdapGroups.ReadingIsUnique | bootstrap/components/dex-secret-ldap/entrypoint.py:51-56 | so a text is an OR filter of at most one list of parts |
| LdapGroups.FilterReadsBack | bootstrap/components/dex-secret-ldap/entrypoint.py:51-56 | the filter is an OR filter of exactly the first components if and only if each of these is a filter component of that grammar |
| LdapGroups.PlainComponents | bootstrap/components/dex-secret-ldap/entrypoint.py:51-56 | a text without parentheses is a filter component exactly when it is an item: attribute, filter type, encoded value |
| LdapGroups.PlainItems | bootstrap/components/dex-secret-ldap/entrypoint.py:51-56 | an attribute name, an equals sign and a value without special characters are such an item, so ordinary entries read back |
| LdapGroups.EmptyPartsAreNoFilter | bootstrap/components/dex-secret-ldap/entrypoint.py:51-56 | two entries without a first component give a text that is no OR filter |
| LdapGroups.JoinedGroupsConfigure | bootstrap/components/dex-secret-ldap/entrypoint.py:39-65 | for every list of two or more groups that comes back from the joined text: it gives that filter in quotes and that base DN, and fails exactly when an entry without a comma is reached |
| LdapGroups.ConfiguredIs | bootstrap/components/dex-secret-ldap/entrypoint.py:39-65 | both cases together, for every text that is one group or joined groups |
| LdapGroups.FindBase | bootstrap/components/dex-secret-ldap/entrypoint.py:44-49 | the loop stops at the base DN that `BaseIsFirst` describes |
| LdapGroups.BuildFilter | bootstrap/components/dex-secret-ldap/entrypoint.py:51-56 | the loop builds the quoted filter that `FilterReadsBack` is about |
| LdapGroups.Connector.GetGroupSearchConfigured | bootstrap/components/dex-secret-ldap/entrypoint.py:25-67 | the setter writes exactly the settings that `ConfiguredIs` describes, leaves them empty on an IndexError and untouched without a group list |

## Left out

- Kubernetes and Metacontroller calls, HTTP, subprocesses, reading files, logging and printing: clusters, trees, files and decoded documents are values.
- JSON, YAML, base64 and regular expression internals: parameters with the assumptions above. A decoded dict has unique keys; a RecursionError on very deep JSON is not modelled.
- The encoding of filter characters as UTF-8: every character outside ASCII is taken as a value character.
- Directory reading errors, symbolic links and hard links in the tree walks.
- A failed write that leaves a half-written kustomization: a write happens completely or not at all.
- Comments and fields unknown to the typed struct, which the label fixer drops when it rewrites a file.
- Relative paths that pass through symbolic links (`..` removes the name before it), and source paths that name a directory or end in a separator.
- Fields of a kustomization that hold something other than a list or null, and null names of generators and applications.
- The written YAML around the `images` list and the deletion of `secretGenerator`.
- Metacontroller's rejection of child kinds it is not configured for; Role and RoleBinding are reconciled like the other kinds.
- `find_kustomize_dirs`: a plain collection of directories, which would add only easy members.
- The two other `sync.py` files: the same controller with another list of children.
- The substitution tables and command sequences of `hack/create_kptfile.py`, `hack/generate_gcp_kpt_data.py` and `hack/build_kfdef_specs.py`, the shell scripts, and the remaining resource tests: finite data, fixed commands and simple scans.
