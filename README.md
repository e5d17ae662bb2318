# adcm_client core, modelled in Dafny

This project models the decision and data-shaping logic of `adcm_client`, the Python client of the ADCM (Arenadata Cluster Manager) REST API. It also models its bundle packer. The model covers:

- **Config documents** (`config.dfy`, module `ConfigDocs`): the recursive deep merge `update` used by `config_set_diff`, the two payload shapes of `config_set`, and how `config_set_diff` chains reading, merging and saving.
- **Action runs** (`action.dfy`, module `Actions`): `_get_config` flattens the action's config items into a document. `Action.run` builds its arguments from it: `config` and `config_diff` are exclusive, a diff is overlaid on the declared non-group items only, `verbose` is gated by server version, and a "409 Conflict … has issues" refusal becomes `ActionHasIssues`.
- **Version gates** (`gates.dfy`, module `Gates`; `versions.dfy`, module `Versions`): the legacy or top-level addressing of services and components, the `verbose` gate, and the minimum server version. Versions are compared as rpm-style segment sequences.
- **Task outcomes** (`task.dfy`, module `Tasks`): `wait`, `try_wait` and the job-log collection of `_log_jobs`, which skips `LOG_NOT_FOUND`.
- **Bundle spec** (`spec.dfy`, module `BundleSpec`): the `SpecFile` class with `except_var`, the legacy-to-1.0 migration `to_1_0`, `normalize_spec` and `pop_edition`.
- **Tar walk** (`tar.dfy`, module `TarWalk`): `compare_helper` and its two matchers, with `fnmatch` written out as a glob matcher, and the recursive `_add_to_tar` over a directory tree.
- **Package lists** (`pkgtypes.dfy`, module `PackerTypes`): the list and command computations of the `python_mod_req` preprocessor, plus `get_type_func`.
- **Audit records** (`audit.dfy`, module `Audit`): the four enumerations with their wire strings, and `_convert`, which decodes enumeration fields and leaves undecodable values raw.

The shared modules are `Values` (`values.dfy`) and `Text`/`Lists` (`text.dfy`).

- `Values` holds the JSON/YAML value model and Python's dictionary and truthiness semantics. Dictionaries are ordered association lists: lookup finds the first entry, assignment replaces in place or appends, and `pop` drops the key.
- `Values` also holds the error kinds. Python exceptions become `Result` errors.
- `Text` and `Lists` hold the string and sequence helpers, including `list(dict.fromkeys(...))`.

Server replies, job lists, log fetches, the polling outcome, docker outputs and the directory tree are all inputs to the model. None of them is computed.

## Model

| member | source | states |
|---|---|---|
| ConfigDocs.Update | src/adcm_client/objects.py:352-359 | A non-mapping diff raises AttributeError. An empty diff returns the document as it is. A non-mapping document with a non-empty diff raises TypeError. Otherwise the result is the document with the diff merged in. |
| ConfigDocs.DeepUpdate | src/adcm_client/objects.py:352-359 | The in-place loop over the diff's items, recursing into nested mappings, computes exactly the merge `MergeFrom`. |
| ConfigDocs.UpdateDocument | src/adcm_client/objects.py:352-359 | `update(d, u)` as a method, with every error case, equals `Update`. |
| ConfigDocs.MergeKeepsUnmentioned | src/adcm_client/objects.py:353-358 | A key the diff does not mention keeps its old value. |
| ConfigDocs.MergeKeepsUnmentionedFrom | src/adcm_client/objects.py:353-358 | The same, for the fold from any position of the diff on. |
| ConfigDocs.MergeAtKey | src/adcm_client/objects.py:354-358 | A key in the diff gets the diff's value, or the recursive merge when both old and new values are mappings. |
| ConfigDocs.MergeAtKeyFrom | src/adcm_client/objects.py:354-358 | The same, for the last mention of the key in the rest of a diff. |
| ConfigDocs.MergeKeys | src/adcm_client/objects.py:353-358 | The merged document's keys are the old keys plus the diff's keys. |
| ConfigDocs.MergeKeysFrom | src/adcm_client/objects.py:353-358 | The same, for the fold from any position of the diff on. |
| ConfigDocs.MergeUnique | src/adcm_client/objects.py:353-358 | Merging keeps a dictionary a dictionary: no key appears twice. |
| ConfigDocs.MergeCoveredIsIdentity | src/adcm_client/objects.py:352-359 | A diff that only restates values already present (an empty diff in particular) leaves the document unchanged. |
| ConfigDocs.IsFull | src/adcm_client/objects.py:364 | `"config" in data and "attr" in data` for a mapping, with TypeError for values `in` cannot test. |
| ConfigDocs.ReadConfig | src/adcm_client/objects.py:326-331 | `config(full)` returns the whole history entry when full, otherwise its `config` (KeyError when absent). |
| ConfigDocs.KeepKeysGet | src/adcm_client/objects.py:344 | The returned entry keeps exactly the `config` and `attr` keys of the created history entry. |
| ConfigDocs.ConfigSet | src/adcm_client/objects.py:339-346 | With both `config` and `attr` present it sends both, with a None `attr` turned into `{}`, and returns the entry restricted to those keys. Otherwise it sends the data as the config and returns the entry's `config`. |
| ConfigDocs.NullAsEmpty | src/adcm_client/objects.py:340-341 | A None `attr` becomes `{}`; any other value is kept. |
| ConfigDocs.ConfigSetDiff | src/adcm_client/objects.py:349-367 | A value `in` cannot test raises TypeError before anything is read. |
| ConfigDocs.DiffSendsMergedConfig | src/adcm_client/objects.py:349-367 | For a plain diff, the saved config is the current config with the diff merged in: unmentioned keys keep their values and mentioned ones take the merged value. The returned value is the created entry's `config`. |
| ConfigDocs.DiffMergesFullEntry | src/adcm_client/objects.py:349-367 | For a full diff (`config` and `attr`), the whole history entry is merged and saved with both parts; a None `attr` is sent as `{}`. |
| Actions.SetSub | src/adcm_client/objects.py:917 | `config[name][subname] = value` raises KeyError when the group is missing and TypeError when it is not a mapping. Otherwise only that subkey of that group changes. |
| Actions.GetConfig | src/adcm_client/objects.py:911-920 | The loop over the config items computes `ConfigFrom`: a group gives `{}`, a subitem `name→subname→value`, any other item `name→value`. |
| Actions.BuildWellFormed | src/adcm_client/objects.py:911-920 | For a well-formed item list (unique keys, every subitem after its group), building succeeds and every item holds in the result. |
| Actions.BuildFrom | src/adcm_client/objects.py:912-919 | Building from any position of a well-formed list keeps every item processed so far. |
| Actions.BuildStepHolds | src/adcm_client/objects.py:913-919 | One item step keeps every earlier item where it was and holds the new one. |
| Actions.SameNameEarlier | src/adcm_client/objects.py:913-919 | In a well-formed list a later item with an earlier item's name is a subitem of that group or a sibling. |
| Actions.ConfigKeys | src/adcm_client/objects.py:911-920 | The built config's keys are exactly the items' names. |
| Actions.ConfigKeysFrom | src/adcm_client/objects.py:912-919 | The same, from any position of the list. |
| Actions.ApplyDiff | src/adcm_client/objects.py:946-955 | The `config_diff` loop, with its `in` tests, indexing and nested assignment, computes `OverlayFrom`. Every error it can raise is included. |
| Actions.OverlayEmptyDiff | src/adcm_client/objects.py:946-955 | An empty `config_diff` changes nothing. |
| Actions.OverlayKeepsUndeclared | src/adcm_client/objects.py:946-955 | A key keeps its built value when no declared non-group item names it, or when only a top-level item the diff does not name uses it. |
| Actions.OverlayTopFrom | src/adcm_client/objects.py:954-955 | A declared top-level item named in the diff takes the diff's value. |
| Actions.OverlaySubFrom | src/adcm_client/objects.py:952-953 | A declared subitem whose subkey the diff's group holds takes the diff's value. |
| Actions.OverlaySiblingsKeep | src/adcm_client/objects.py:952-953 | Later sibling overlays keep an earlier subitem's value. |
| Actions.OverlaySubKeep | src/adcm_client/objects.py:951-953 | A subkey of a section keeps its value when every item that could write there has another subname or finds the subkey missing from the diff's section. |
| Actions.OverlayWellFormed | src/adcm_client/objects.py:943-955 | On a well-formed list the diff writes exactly what it names. A top-level item takes the diff's value under its name. A grouped item takes the diff's value under its name and subname. A name no non-group item declares keeps its value. A top-level item the diff does not name keeps its value. A grouped item whose subname the diff's section lacks keeps its value. A subkey no item of a group declares is never written into that group. |
| Actions.BuiltSectionsAreDicts | src/adcm_client/objects.py:913-919 | In a configuration built from a well-formed list, every group's name and every grouped item's name holds a dictionary. So the frame of `OverlayWellFormed` applies to the configuration `run` overlays. |
| Actions.OverlaySucceeds | src/adcm_client/objects.py:946-955 | On a well-formed item list, a `config_diff` that is a mapping, with a mapping for every group a grouped item reaches, is always applied: building and overlaying both succeed. |
| Actions.ConfigArgs | src/adcm_client/objects.py:943-955 | Without `config`, no item list raises TypeError. Otherwise `config` is the built document, overlaid with `config_diff` when given. With `config_diff` the result succeeds exactly when building and overlaying do. `config_diff` is removed and every other argument is kept. |
| Actions.RunArgs | src/adcm_client/objects.py:937-962 | `config` with `config_diff` raises TypeError. A given `config` is passed through. Otherwise `config` is the built document, overlaid with `config_diff` when given, and the call succeeds exactly when building (and overlaying) does. Every argument other than `config`, `config_diff` and `verbose` is kept. `verbose` is present iff the server is at 2021.02.04.13 or later, and the arguments stay a dictionary. |
| Actions.RunWithDiffSucceeds | src/adcm_client/objects.py:939-955 | `run(config_diff=...)` on a well-formed item list with a fitting diff produces its arguments, with `config` the built document overlaid with the diff. |
| Actions.PrepareRunArgs | src/adcm_client/objects.py:937-962 | The in-place mutation of `args` (build, `pop`, `setdefault`, nested assignment) computes `RunArgs`. |
| Actions.ClassifyRunError | src/adcm_client/objects.py:963-969 | `ActionHasIssues` iff the title is "409 Conflict" and the description contains "has issues". Any other title re-raises the error unchanged. A description `in` cannot test raises TypeError. |
| Actions.ClassifyTextDescription | src/adcm_client/objects.py:963-969 | For a text description, the refusal is ActionHasIssues iff it is a 409 containing "has issues"; otherwise the original error surfaces. |
| Actions.Run | src/adcm_client/objects.py:933-971 | Argument errors surface before any call. A created task is returned by its `id`, and a refusal is classified. |
| Gates.GatedPath | src/adcm_client/objects.py:663-664 | PATH is None iff the server is older than the threshold; otherwise it is the class's PATH. |
| Gates.ServicePath | src/adcm_client/objects.py:654-665 | `Service` loses its PATH iff the server is older than 2020.09.25.13. |
| Gates.ServiceListPath | src/adcm_client/objects.py:735-746 | `ServiceList` loses its PATH iff the server is older than 2020.09.25.13. |
| Gates.ComponentPath | src/adcm_client/objects.py:774-785 | `Component` loses its PATH iff the server is older than 2021.03.12.16. |
| Gates.ComponentListPath | src/adcm_client/objects.py:810-821 | `ComponentList` loses its PATH iff the server is older than 2021.03.12.16. |
| Gates.GatedPathMonotone | src/adcm_client/objects.py:663-664 | A server no newer than one that gets legacy addressing gets it too. |
| Gates.ComponentGateImpliesServiceGate | src/adcm_client/objects.py:783-784 | Top-level components imply top-level services. |
| Gates.VerboseArgs | src/adcm_client/objects.py:957-962 | From 2021.02.04.13 on, `verbose` defaults to False and a caller's value is kept. Older servers never get `verbose`. Other arguments are untouched. |
| Gates.CheckMinVersion | src/adcm_client/objects.py:1223-1228 | ADCMApiError with the fixed message unless the server is strictly newer than 2019.02.20.00. |
| Gates.AcceptedServersUpwardClosed | src/adcm_client/objects.py:1223-1228 | Any server not older than an accepted one is accepted. |
| Gates.MinVersionRejected | src/adcm_client/objects.py:1225 | The threshold itself is rejected (the comparison is strict). |
| Versions.Compare | src/adcm_client/objects.py:663 | `rpm.compare_versions` returns -1, 0 or 1, and 0 iff the versions are equal. |
| Versions.CompareAntisymmetric | src/adcm_client/objects.py:663 | Swapping the arguments negates the comparison. |
| Versions.OlderTransitive | src/adcm_client/objects.py:663 | "Older" is transitive. |
| Versions.OlderTotal | src/adcm_client/objects.py:663 | Any two versions are equal or one is older. |
| Tasks.FileRecords | src/adcm_client/objects.py:1073-1080 | A fetched log file logs its `type` when present and its `content` when present. The content format defaults to "txt" and "json" content is logged as JSON. |
| Tasks.Selected | src/adcm_client/objects.py:1056 | `job_list(status=...)` keeps exactly the jobs with that status; no filter keeps all. |
| Tasks.LogFiles | src/adcm_client/objects.py:1064-1080 | The loop over a job's files, with `continue` on LOG_NOT_FOUND and a raise on other errors, computes `FilesLog`. |
| Tasks.LogJobs | src/adcm_client/objects.py:1055-1080 | The loop over the selected jobs computes `JobsLog`: error level for failed jobs, info otherwise, then each job's files. |
| Tasks.LogNotFoundSkipped | src/adcm_client/objects.py:1068-1071 | A LOG_NOT_FOUND file contributes nothing: the log is what it would be without that file, and the rest is still processed. |
| Tasks.FilesLogFailure | src/adcm_client/objects.py:1066-1072 | Collection fails iff some file fails with another code, and then with the first such error. |
| Tasks.Wait | src/adcm_client/objects.py:1033-1044 | Without logging the reached status is returned and a timeout raises WaitTimeout, with nothing logged. With logging, a "failed" status logs exactly the failed jobs and is returned unless a log fetch raises. A timeout logs every job and raises WaitTimeout unless a log fetch raises first. Any other status is returned with nothing logged. An error other than WaitTimeout comes only from logging, after at least one line was logged. |
| Tasks.WaitOutcomeNoFatal | src/adcm_client/objects.py:1033-1044 | When no log fetch is fatal, `wait` returns the reached status, "failed" included, and raises WaitTimeout on a timeout, with logging on or off. |
| Tasks.TryWait | src/adcm_client/objects.py:1047-1053 | Logs as `wait` with logging on. |
| Tasks.TryWaitOutcome | src/adcm_client/objects.py:1047-1053 | TaskFailed iff the status is "failed". "success" is returned, and a timeout surfaces as WaitTimeout. |
| Tasks.TryWaitNeverReturnsFailed | src/adcm_client/objects.py:1047-1053 | `try_wait` never returns "failed"; it returns only the status reached. |
| Tasks.JobsLogFailure | src/adcm_client/objects.py:1055-1080 | Without fatal fetch errors, log collection does not fail. |
| BundleSpec.DirValues | adcm_client/packer/spec.py:93-95 | The values of the keys containing "_dir", in order. |
| BundleSpec.DirValuesFromDirKeys | adcm_client/packer/spec.py:93-95 | Every collected directory value comes from a "_dir" key. |
| BundleSpec.DirKeysInDirValues | adcm_client/packer/spec.py:93-95 | Every value under a "_dir" key is collected. |
| BundleSpec.ExceptFiles | adcm_client/packer/spec.py:96-98 | The `file` of each processing entry with a truthy `except_file`, in order. A non-mapping entry raises AttributeError. |
| BundleSpec.SpecFile.ExceptVar | adcm_client/packer/spec.py:90-99 | The two loops compute, in order, first the "_dir" values and then the excepted files. |
| BundleSpec.Preprocessor | adcm_client/packer/spec.py:50-63 | A non-mapping entry raises AttributeError. An entry with a truthy `script` succeeds exactly when its `name` is a string, `data[name + "_dir"]` and `script` are strings, and it has a `file`. It then becomes `{type: "script", script: join(data[name + "_dir"], script), args: [file]}`. A `python_mod_req` entry succeeds exactly when it has a `file` and becomes `{type: "python_mod_req", requirements: file}`. Any other entry exits with its name. |
| BundleSpec.Preprocessors | adcm_client/packer/spec.py:49-63 | One preprocessor per entry, in order, or the first entry's error. |
| BundleSpec.PreprocessorsStopAt | adcm_client/packer/spec.py:49-63 | The first failing entry's error is the migration's error. |
| BundleSpec.PreprocessorsAll | adcm_client/packer/spec.py:49-61 | Entries that all convert give exactly their preprocessors. |
| BundleSpec.SpecFile.ConvertProcessing | adcm_client/packer/spec.py:49-63 | The append loop computes `Preprocessors`. |
| BundleSpec.SpecFile.ToV10 | adcm_client/packer/spec.py:33-64 | `to_1_0` on the current data: the exclusions first, then the preprocessors. |
| BundleSpec.NewSpecFields | adcm_client/packer/spec.py:34-48 | The migrated spec has version None and one edition holding name None, the exclusions and the preprocessors. |
| BundleSpec.MigratedShape | adcm_client/packer/spec.py:34-64 | A migrated spec has version None and exactly one edition, named None. Its `exclude` is `except_var(data)`, and it holds one preprocessor per processing entry, in order. |
| BundleSpec.UnrecognizedEntryStops | adcm_client/packer/spec.py:62-63 | An unconvertible processing entry makes the migration fail. |
| BundleSpec.SpecFile.NormalizeSpec | adcm_client/packer/spec.py:66-77 | A spec at "1.0" is kept and any other spec is migrated. On success `current_version` becomes "1.0"; on failure nothing changes. |
| BundleSpec.NormalizedAtCurrentVersion | adcm_client/packer/spec.py:69-74 | A spec whose version is "1.0" is left unchanged. |
| BundleSpec.BelowOne | adcm_client/packer/spec.py:80 | `float(v) < 1.0` for decimal version text: true iff the whole part is zero or the sign is negative. Non-numbers raise ValueError. |
| BundleSpec.WholeZeroIffValueZero | adcm_client/packer/spec.py:80 | The whole part's value is zero iff all its digits are zeros. |
| BundleSpec.VersionOneSupportsEditions | adcm_client/packer/spec.py:80-81 | Version "1.0" passes the editions check. |
| BundleSpec.FindEdition | adcm_client/packer/spec.py:82-85 | The scan fails only with AttributeError, on an edition that has no `get`. |
| BundleSpec.FindEditionFirst | adcm_client/packer/spec.py:82-85 | The edition chosen is the first whose name matches, and no earlier edition matches. |
| BundleSpec.FindEditionNone | adcm_client/packer/spec.py:82-87 | No edition is found iff all are mappings and none matches. |
| BundleSpec.EditionsOf | adcm_client/packer/spec.py:82 | `self.data["editions"][:]` succeeds exactly when `editions` is present and is a list or a string. A list is copied as it is. |
| BundleSpec.Popped | adcm_client/packer/spec.py:79-87 | A version below 1.0 raises ValueError "doesn't support editions". A success replaces `editions` with a one-element list holding the FIRST matching edition of the copied list, every earlier edition being a non-matching dictionary. ValueError "not present" is raised exactly when the version is at least 1.0, the copy succeeds, and every edition is a non-matching dictionary. |
| BundleSpec.SpecFile.FirstEdition | adcm_client/packer/spec.py:82-87 | The loop over the copied editions computes `FindEdition`: the first matching edition, AttributeError for a non-mapping one, or none. |
| BundleSpec.SpecFile.PopEdition | adcm_client/packer/spec.py:79-87 | Equals `Popped`, so it keeps the first match and raises ValueError when none matches. On any error `data` is unchanged, and `current_version` is never changed. |
| BundleSpec.PopMigratedEdition | adcm_client/packer/spec.py:79-85 | Selecting the unnamed edition of a migrated spec at "1.0" gives the spec back. |
| TarWalk.GlobLiteral | adcm_client/packer/add_to_tar.py:47 | A pattern without `*`, `?`, `[` matches exactly itself. |
| TarWalk.GlobStarAll | adcm_client/packer/add_to_tar.py:47 | `*` matches every string. |
| TarWalk.GlobStarSuffix | adcm_client/packer/add_to_tar.py:40-47 | `*` + literal matches exactly the strings ending in the literal, as in `*.gz` and `*.md`. |
| TarWalk.HiddenNameMatches | adcm_client/packer/add_to_tar.py:36-47 | `.[0-9a-zA-Z]*` matches every name made of a dot, a letter or digit, and anything after. |
| TarWalk.LegacyExcludesMarkdown | adcm_client/packer/add_to_tar.py:31-49 | After `compare_helper` for a legacy spec, every `.md` file is excluded, whatever the caller's list. |
| TarWalk.AnyGlob | adcm_client/packer/add_to_tar.py:45-49 | The legacy matcher excludes iff some pattern matches the normalized path or the bare name. |
| TarWalk.AnyRegex | adcm_client/packer/add_to_tar.py:53-59 | The 1.0 matcher excludes iff some expression matches at the start of the normalized path. |
| TarWalk.Matches | adcm_client/packer/add_to_tar.py:45-59 | The loop-and-return matchers compute exactly `Excluded`. |
| TarWalk.CompareHelper | adcm_client/packer/add_to_tar.py:25-62 | A version other than None or "1.0" raises NotValidSpecVersion and leaves the list unchanged. None appends the 8 default patterns in order and returns the legacy matcher. "1.0" leaves the list as it is and returns the regex matcher. |
| TarWalk.PatternList.Extend | adcm_client/packer/add_to_tar.py:32-43 | `extend` appends after the existing entries. |
| TarWalk.Tar.Add | adcm_client/packer/add_to_tar.py:76 | `tar.add` appends one member. |
| TarWalk.Walk | adcm_client/packer/add_to_tar.py:70-76 | The recursive walk appends to the tar exactly `Collected`, in scan order. |
| TarWalk.Visit | adcm_client/packer/add_to_tar.py:72-76 | One iteration: an excluded entry is skipped, a directory is descended into, and a file is added. |
| TarWalk.AddToTar | adcm_client/packer/add_to_tar.py:65-79 | The version check comes first, and nothing is added on error. Otherwise the walk runs from the bundle root with the matcher `compare_helper` built. |
| TarWalk.CollectedIsAdmitted | adcm_client/packer/add_to_tar.py:70-76 | The tar receives exactly the files that are not excluded and have no excluded ancestor directory, in scan order. Excluded directories are pruned and only files are added. |
| TarWalk.AdmittedPrunedDir | adcm_client/packer/add_to_tar.py:72-74 | Nothing below an excluded directory is admitted. |
| TarWalk.AdmittedOpenDir | adcm_client/packer/add_to_tar.py:73-74 | Below a kept directory, what is admitted is what its contents admit. |
| TarWalk.FileChains | adcm_client/packer/add_to_tar.py:71-76 | Every chain ends in a file entry. |
| PackerTypes.Words | adcm_client/packer/types.py:47 | `str.split()` gives non-empty words without whitespace. |
| PackerTypes.WordsOfJoin | adcm_client/packer/types.py:47 | Splitting words joined by spaces gives the words back. |
| PackerTypes.Segments | adcm_client/packer/types.py:46 | `x.split('/')[0]` for each listed file. |
| PackerTypes.DropDots | adcm_client/packer/types.py:49 | "." and ".." are dropped and everything else is kept. When the input has no repeats, neither has the result, and the kept elements stay in their input order. |
| PackerTypes.TopDirs | adcm_client/packer/types.py:43-49 | A missing `Files` raises KeyError and a non-text `Files` raises AttributeError. When a path has to be built, a missing `Location` raises KeyError and a non-text one TypeError. The call succeeds exactly when `Files` is text and, if some segment remains, `Location` is text. The result is then the location joined with each top segment, in order, or empty when none remains. |
| PackerTypes.TopDirsSpec | adcm_client/packer/types.py:43-49 | The segments are exactly the listed files' first segments other than "." and "..". None repeats, and they keep the order of their first occurrences. The joined paths do not repeat either. |
| PackerTypes.TopSegmentsOrder | adcm_client/packer/types.py:44-48 | The top segments appear in the order in which they first occur among the listed files' first segments, as `dict.fromkeys` keeps them. |
| Lists.DedupKeepsFirstOccurrenceOrder | adcm_client/packer/types.py:44-45 | `list(dict.fromkeys(xs))` keeps the distinct elements in the order of their first occurrences. |
| Lists.Dedup | adcm_client/packer/types.py:44-45 | `list(dict.fromkeys(xs))` has no repeats and the same elements as `xs`. |
| PackerTypes.ModuleFilter | adcm_client/packer/types.py:106-111 | The modules processed are exactly the prepared image's freeze entries missing from the base image's, with `==version` removed. |
| PackerTypes.PackageDirsOk | adcm_client/packer/types.py:106-112 | The listing succeeds iff every module's top-level listing succeeds. |
| PackerTypes.JoinJson | adcm_client/packer/types.py:60-61 | `' '.join(x)` succeeds iff `x` is iterable with text items; otherwise TypeError. |
| PackerTypes.PreparedContainerCommand | adcm_client/packer/types.py:57-62 | The `+=` construction computes `ContainerCommand`. |
| PackerTypes.ContainerCommandParts | adcm_client/packer/types.py:58-61 | The command begins with `apk add` exactly when `system_pkg` is non-empty, and always ends with `pip install` of `python_mod`. |
| PackerTypes.CopiedDirs | adcm_client/packer/types.py:66 | `_copy_pkgs_files` copies each directory once and none other. |
| PackerTypes.PythonModReq | adcm_client/packer/types.py:88-123 | A missing `requirements` raises KeyError, and a missing or empty `python_mod` raises NoModulesToInstall. The image defaults to arenadata/adcm:latest. A named prepared image is used when it exists and is never removed. A built image comes from a container running `ContainerCommand` of the requirements. The modules are the freeze difference. The copy command copies `PackageDirs` of those modules, each directory once, into `<source>/pmod` for the user. |
| PackerTypes.MissingPreparedImageIsKept | adcm_client/packer/types.py:96-120 | When a named prepared image is missing, one is built, and as written it is not removed afterwards. |
| PackerTypes.GetTypeFunc | adcm_client/packer/types.py:135-137 | Only "python_mod_req" and "splitter" are found; any other name raises KeyError. |
| Audit.DecodeObjectType | src/adcm_client/audit.py:27-41 | Decoding gives the member with that wire string, or nothing when no member has it. |
| Audit.ObjectTypeRoundTrip | src/adcm_client/audit.py:27-41 | Each of the object types decodes back from its wire string, and the wire strings are pairwise distinct. |
| Audit.DecodeOperationType | src/adcm_client/audit.py:44-49 | Exactly "create", "update" and "delete" decode. |
| Audit.OperationTypeRoundTrip | src/adcm_client/audit.py:44-49 | Round trip and distinct wire strings. |
| Audit.DecodeOperationResult | src/adcm_client/audit.py:52-57 | "success", "fail" and "denied" decode to Success, Failure and Denied. |
| Audit.OperationResultRoundTrip | src/adcm_client/audit.py:52-57 | Round trip, distinct wire strings, and "failure" does not decode. |
| Audit.DecodeLoginResult | src/adcm_client/audit.py:112-118 | Exactly the four login strings, spaces included, decode. |
| Audit.LoginResultRoundTrip | src/adcm_client/audit.py:112-118 | Round trip and distinct wire strings. |
| Audit.ConvertField | src/adcm_client/audit.py:64-65 | A member's wire string becomes that member, and anything else stays raw. |
| Audit.ConvertFieldIdempotent | src/adcm_client/audit.py:64-65 | Converting twice is converting once. |
| Audit.ConvertObjectTypeField | src/adcm_client/audit.py:95 | A raw object type string converts to its member. |
| Audit.AuditOperation.Convert | src/adcm_client/audit.py:94-97 | Exactly `object_type`, `operation_type` and `operation_result` are converted; the other fields are unchanged. |
| Audit.AuditLogin.Convert | src/adcm_client/audit.py:131-132 | Only `login_result` is converted. |

## Left out

- HTTP transport: `_subcall`, `_child_obj`, the entity factories and `adcm_client/base.py` are not part of this model. Server replies are inputs.
- Polling: the `wait_for_attr` loop, sleeping and timeouts are not part of this model. `wait` receives as input either the terminal status or a timeout.
- rpm version strings are modelled as already-parsed segment sequences. The rpm comparison is modelled as lexicographic segment comparison with a prefix being older; `version_utils` is not part of this model.
- Logging, warnings, allure steps and JSON pretty-printing are left out. The model records only the log level and the line content.
- Docker, YAML and jinja2 loading, file opening, `subprocess`, `scandir`, `chdir` and `getcwd` are I/O. The directory is a tree datatype with children in scan order, and the tar is a sequence of member paths.
- `splitter` and `spec_processing` run jinja2 templates and subprocesses. Only their selection by `get_type_func` is modelled.
- `_get_prepared_image` tags the image randomly, so `PythonModReq` records only whether an image is built and with what command.
- `datetime.fromisoformat` in audit is left out; `operation_time` and `login_time` keep their raw values.
- Floating point: the model has no floats. A spec whose YAML `version` is the unquoted number 1.0 is a float in the source and is not equal to the text "1.0"; that case is not modelled.
- Audit.AuditOperation.Convert: does not model the `operation_time` parse, because no datetime value is modelled.
- Audit.AuditLogin.Convert: does not model the `login_time` parse, for the same reason.
- Audit.ConvertField: how `_convert_enum` degrades follows the class's own description (an undecodable value stays a string), since `base.py` is not part of this model.
- TarWalk.Glob: the shell patterns cover `*`, `?`, bracket sets with ranges and `!` negation, and an unclosed `[` as a literal. Python's treatment of empty or reversed ranges and of `-` at chunk edges is not modelled.
- TarWalk.AnyRegex: `re.match` is an abstract predicate `reMatch(expression, path)`. An invalid expression (re.error) is not modelled.
- TarWalk.EntryPath: `normpath` is modelled only for the paths the walk itself builds: the root's `./name` becomes `name`, and deeper entries are `dir/name`.
- TarWalk.CompareHelper: the legacy matcher captures the list contents when the comparator is made. In the source it reads the caller's list at every call, but nothing changes that list during `add_to_tar`.
- BundleSpec.SpecFile.constructor: takes the loaded data and the text of its version. YAML loading, `str()` of the version value and the missing-file fallback are not modelled.
- BundleSpec.BelowOne: `float()` is modelled only for optionally signed decimal text such as "0", "1.0" or "2"; exponents, "inf" and "nan" raise ValueError in the model.
- PackerTypes.IsSpace: only ASCII whitespace and the separators \x1c-\x1f are modelled; Unicode spaces are not.
- PackerTypes.PythonModReq: the `requirements` path is checked for presence only. Joining it with the source path and opening the file are not modelled.
- Concurrency, and the read-merge-write race of `config_set_diff`, are left out.
