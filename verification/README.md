# DPU launch pipeline

This project models how the Knowing Eclipse tooling turns a launch configuration for a Data
Processing Unit (DPU) into a generated `application.conf` and a VM argument string. It has two
halves:

- `DPULaunchConfigurationDelegate`, in modules `Codec` and `Delegate`:
  - the parameter codec: map to list, list to map, and `key=value` tokens;
  - the checks `launch` runs, in their order;
  - the generated configuration map;
  - the VM argument flag that `launch` sets on a working copy of the configuration.
- `DPULaunchConfigurationTab`, in module `Tab`, as a class over the tab's fields:
  - the chosen DPU file, the loaded DPU and its parameter list;
  - the three text fields, the dirty flag and the error message;
  - the override merge, the two path validators, and the updates done by `initializeFrom`,
    `update`, `updateExecutionPath` and `performApply`.

Module `Host` holds the collaborators, reduced to the state the pipeline observes:
- the workspace, as a map from project and relative path to a member (a file or a container);
- the local file system, as a class with a kind per path, the writable paths and the written
  files;
- the launch configuration store, as a class with string and map attributes.

Java `null` is `Option.None`. An exception that leaves a method is `Result.Failure`.

Two points of the code worth knowing:
- `parameterMap` takes the first two fragments of `token.split("=")`, so `a=b=c` gives `a -> b`.
  A token with more than one `=` is not rejected.
- `launch` writes one `dpu.parameters.<k>` entry per entry of the stored parameter map attribute.
  It does not merge that map into the DPU's own parameter list.

## Model

| member | source | states |
|---|---|---|
| Codec.ToMap | de.lmu.ifi.dbs.knowing.debug.core/src/de/lmu/ifi/dbs/knowing/debug/core/launching/DPULaunchConfigurationDelegate.java:163-167 | putting a list into an empty map gives exactly the list's keys |
| Codec.ToMapSnoc | de.lmu.ifi.dbs.knowing.debug.core/src/de/lmu/ifi/dbs/knowing/debug/core/launching/DPULaunchConfigurationDelegate.java:165 | one more put overwrites that key and leaves every other entry |
| Codec.ToMapLastWins | de.lmu.ifi.dbs.knowing.debug.core/src/de/lmu/ifi/dbs/knowing/debug/core/launching/DPULaunchConfigurationDelegate.java:164-166 | a key maps to the value of its last occurrence in the list |
| Codec.EntryListRoundTrip | de.lmu.ifi.dbs.knowing.debug.core/src/de/lmu/ifi/dbs/knowing/debug/core/launching/DPULaunchConfigurationDelegate.java:147-168 | any list holding each entry of a map once converts back to that map |
| Codec.EntryListsArePermutations | de.lmu.ifi.dbs.knowing.debug.core/src/de/lmu/ifi/dbs/knowing/debug/core/launching/DPULaunchConfigurationDelegate.java:151-156 | whatever order the map is walked in, two such lists are permutations of each other |
| Codec.EntriesExceptStep | de.lmu.ifi.dbs.knowing.debug.core/src/de/lmu/ifi/dbs/knowing/debug/core/launching/DPULaunchConfigurationDelegate.java:151-156 | taking the entry of one more unvisited key keeps each visited entry exactly once |
| Codec.StringToParameters | de.lmu.ifi.dbs.knowing.debug.core/src/de/lmu/ifi/dbs/knowing/debug/core/launching/DPULaunchConfigurationDelegate.java:147-158 | null or empty gives the empty list; otherwise one parameter per entry with the same key and value, the length equal to the map's size, keys distinct |
| Codec.ParametersToString | de.lmu.ifi.dbs.knowing.debug.core/src/de/lmu/ifi/dbs/knowing/debug/core/launching/DPULaunchConfigurationDelegate.java:160-168 | null or empty gives the empty map; otherwise the keys are the list's keys, each with the value of its last occurrence |
| Codec.DistinctKeyCount | de.lmu.ifi.dbs.knowing.debug.core/src/de/lmu/ifi/dbs/knowing/debug/core/launching/DPULaunchConfigurationDelegate.java:160-168 | a list with distinct keys has as many keys as entries, so its map has its length |
| Codec.OwnEntryList | de.lmu.ifi.dbs.knowing.debug.core/src/de/lmu/ifi/dbs/knowing/debug/core/launching/DPULaunchConfigurationDelegate.java:160-168 | a list with distinct keys holds each entry of its own map exactly once |
| Codec.MapRoundTrip | de.lmu.ifi.dbs.knowing.debug.core/src/de/lmu/ifi/dbs/knowing/debug/core/launching/DPULaunchConfigurationDelegate.java:147-168 | parametersToString(stringToParameters(m)) is m, and the empty map for null |
| Codec.ListRoundTrip | de.lmu.ifi.dbs.knowing.debug.core/src/de/lmu/ifi/dbs/knowing/debug/core/launching/DPULaunchConfigurationDelegate.java:147-168 | a list with distinct keys comes back through the map as a permutation of itself |
| Codec.StripTrailingEmpty | de.lmu.ifi.dbs.knowing.debug.core/src/de/lmu/ifi/dbs/knowing/debug/core/launching/DPULaunchConfigurationDelegate.java:173 | `split` with limit 0 keeps a prefix of the fragments whose last fragment, if any, is non-empty |
| Codec.JavaSplit | de.lmu.ifi.dbs.knowing.debug.core/src/de/lmu/ifi/dbs/knowing/debug/core/launching/DPULaunchConfigurationDelegate.java:173 | a token without `=` is its own single fragment; otherwise a prefix of the fragments at every `=`, ending in a non-empty one |
| Codec.Assignment | de.lmu.ifi.dbs.knowing.debug.core/src/de/lmu/ifi/dbs/knowing/debug/core/launching/DPULaunchConfigurationDelegate.java:173-174 | a token yields a parameter only if it holds `=` |
| Codec.IndexOfSep | de.lmu.ifi.dbs.knowing.debug.core/src/de/lmu/ifi/dbs/knowing/debug/core/launching/DPULaunchConfigurationDelegate.java:173 | the position of the first `=` |
| Codec.SplitAll | de.lmu.ifi.dbs.knowing.debug.core/src/de/lmu/ifi/dbs/knowing/debug/core/launching/DPULaunchConfigurationDelegate.java:173 | splitting at every `=` yields at least one fragment |
| Codec.StripFacts | de.lmu.ifi.dbs.knowing.debug.core/src/de/lmu/ifi/dbs/knowing/debug/core/launching/DPULaunchConfigurationDelegate.java:173 | `split` drops exactly the trailing empty fragments: a prefix, non-empty last fragment, only empties dropped |
| Codec.SplitAllEmptyFragments | de.lmu.ifi.dbs.knowing.debug.core/src/de/lmu/ifi/dbs/knowing/debug/core/launching/DPULaunchConfigurationDelegate.java:173 | every fragment is empty exactly when the text is all `=` |
| Codec.StripKeepsTwo | de.lmu.ifi.dbs.knowing.debug.core/src/de/lmu/ifi/dbs/knowing/debug/core/launching/DPULaunchConfigurationDelegate.java:173-174 | a second fragment survives exactly when some fragment after the first is non-empty |
| Codec.AssignmentDefined | de.lmu.ifi.dbs.knowing.debug.core/src/de/lmu/ifi/dbs/knowing/debug/core/launching/DPULaunchConfigurationDelegate.java:173-174 | a token has a second fragment iff it holds `=` and is not all `=` after the first one |
| Codec.UpToSep | de.lmu.ifi.dbs.knowing.debug.core/src/de/lmu/ifi/dbs/knowing/debug/core/launching/DPULaunchConfigurationDelegate.java:173 | the longest prefix without `=`, followed by `=` or the end |
| Codec.AssignmentFragments | de.lmu.ifi.dbs.knowing.debug.core/src/de/lmu/ifi/dbs/knowing/debug/core/launching/DPULaunchConfigurationDelegate.java:173-174 | the key is the text before the first `=`, the value the text up to the next `=` |
| Codec.SplitPrefix | de.lmu.ifi.dbs.knowing.debug.core/src/de/lmu/ifi/dbs/knowing/debug/core/launching/DPULaunchConfigurationDelegate.java:173 | the text before the first `=`, that `=` and the next separator-free stretch form a prefix of the token, followed by `=` or the end |
| Codec.FirstTwoFragments | de.lmu.ifi.dbs.knowing.debug.core/src/de/lmu/ifi/dbs/knowing/debug/core/launching/DPULaunchConfigurationDelegate.java:173 | the first two fragments and the `=` between them are a prefix of the token |
| Codec.AssignmentShape | de.lmu.ifi.dbs.knowing.debug.core/src/de/lmu/ifi/dbs/knowing/debug/core/launching/DPULaunchConfigurationDelegate.java:173-174 | the token starts with key `=` value, neither holds `=`, and what follows (if anything) starts with `=` |
| Codec.AssignmentOfPair | de.lmu.ifi.dbs.knowing.debug.core/src/de/lmu/ifi/dbs/knowing/debug/core/launching/DPULaunchConfigurationDelegate.java:173-174 | `k=v` with no `=` in either and non-empty `v` parses back to (k, v) |
| Codec.ParsedBySnoc | de.lmu.ifi.dbs.knowing.debug.core/src/de/lmu/ifi/dbs/knowing/debug/core/launching/DPULaunchConfigurationDelegate.java:172-175 | one more accepted token adds its parameter at the end |
| Codec.ParameterMapStep | de.lmu.ifi.dbs.knowing.debug.core/src/de/lmu/ifi/dbs/knowing/debug/core/launching/DPULaunchConfigurationDelegate.java:172-175 | one more accepted token puts its key and value into the map built so far |
| Codec.ParameterMap | de.lmu.ifi.dbs.knowing.debug.core/src/de/lmu/ifi/dbs/knowing/debug/core/launching/DPULaunchConfigurationDelegate.java:170-177 | succeeds iff every token has a second fragment, with later tokens overwriting earlier keys; otherwise fails at the first token without one |
| Host.Exists | de.lmu.ifi.dbs.knowing.debug.ui/src/main/java/de/lmu/ifi/dbs/knowing/debug/ui/launching/DPULaunchConfigurationTab.java:264 | `Files.exists`: the path has a kind |
| Host.IsDirectory | de.lmu.ifi.dbs.knowing.debug.core/src/de/lmu/ifi/dbs/knowing/debug/core/launching/DPULaunchConfigurationDelegate.java:97 | `Files.isDirectory`: the path names an existing directory |
| Host.IsWritable | de.lmu.ifi.dbs.knowing.debug.core/src/de/lmu/ifi/dbs/knowing/debug/core/launching/DPULaunchConfigurationDelegate.java:99 | `Files.isWritable`: the path exists and may be written |
| Host.CanOpen | de.lmu.ifi.dbs.knowing.debug.core/src/de/lmu/ifi/dbs/knowing/debug/core/launching/DPULaunchConfigurationDelegate.java:116 | a path can be opened for writing iff it is not a directory and, if it exists, it is a writable regular file; a new path always can |
| Host.FileSystem.Write | de.lmu.ifi.dbs.knowing.debug.core/src/de/lmu/ifi/dbs/knowing/debug/core/launching/DPULaunchConfigurationDelegate.java:116-120 | opening a directory or an existing read-only file, or an open fault, fails and changes nothing; once opened the file exists, is writable and is truncated, so a later fault leaves it damaged; without a fault it holds exactly the content |
| Host.LaunchConfiguration.GetString | de.lmu.ifi.dbs.knowing.debug.core/src/de/lmu/ifi/dbs/knowing/debug/core/launching/DPULaunchConfigurationDelegate.java:81-84 | `getAttribute` with a string default: the stored value when the attribute is present, the default otherwise |
| Host.LaunchConfiguration.GetMap | de.lmu.ifi.dbs.knowing.debug.core/src/de/lmu/ifi/dbs/knowing/debug/core/launching/DPULaunchConfigurationDelegate.java:108 | `getAttribute` with a map default: the stored map when the attribute is present, the default otherwise |
| Host.LaunchConfiguration.GetWorkingCopy | de.lmu.ifi.dbs.knowing.debug.core/src/de/lmu/ifi/dbs/knowing/debug/core/launching/DPULaunchConfigurationDelegate.java:124 | a fresh configuration with the same attributes |
| Host.LaunchConfiguration.SetString | de.lmu.ifi.dbs.knowing.debug.core/src/de/lmu/ifi/dbs/knowing/debug/core/launching/DPULaunchConfigurationDelegate.java:125 | one string attribute is replaced, nothing else changes |
| Host.LaunchConfiguration.SetMap | de.lmu.ifi.dbs.knowing.debug.ui/src/main/java/de/lmu/ifi/dbs/knowing/debug/ui/launching/DPULaunchConfigurationTab.java:216 | one map attribute is replaced, nothing else changes |
| Delegate.LaunchError.Message | de.lmu.ifi.dbs.knowing.debug.core/src/de/lmu/ifi/dbs/knowing/debug/core/launching/DPULaunchConfigurationDelegate.java:87-100 | the four check messages of launch, each ending in `!` (exactly those do); `DelegateFailed` stands for an OSGi launch failure and `NullHandle` and `NotAFile` name Java runtime exceptions, so these three strings are not in the code |
| Delegate.FindDPUFile | de.lmu.ifi.dbs.knowing.debug.core/src/de/lmu/ifi/dbs/knowing/debug/core/launching/DPULaunchConfigurationDelegate.java:130-136 | no handle when the project name or the path is null or names no member; a failed cast iff it names a container; otherwise the file's handle, carrying its project, path and location |
| Delegate.LoadDPU | de.lmu.ifi.dbs.knowing.debug.core/src/de/lmu/ifi/dbs/knowing/debug/core/launching/DPULaunchConfigurationDelegate.java:138-145 | the descriptor stored in the file, or the load error when it does not parse |
| Delegate.Precheck | de.lmu.ifi.dbs.knowing.debug.core/src/de/lmu/ifi/dbs/knowing/debug/core/launching/DPULaunchConfigurationDelegate.java:85-100 | rejects, each iff the earlier checks passed: a container where the DPU file should be, missing DPU, unloadable DPU, execution path not a directory (missing included), not writable |
| Delegate.ExistenceCheckAsWritten | de.lmu.ifi.dbs.knowing.debug.core/src/de/lmu/ifi/dbs/knowing/debug/core/launching/DPULaunchConfigurationDelegate.java:85-87 | the existence check as written throws a null dereference exactly when the DPU is missing |
| Delegate.MissingDpuFinding | de.lmu.ifi.dbs.knowing.debug.core/src/de/lmu/ifi/dbs/knowing/debug/core/launching/DPULaunchConfigurationDelegate.java:85-87 | for a missing DPU the code as written throws a null dereference, while Precheck gives "DPU doesn't exist!" |
| Delegate.ParameterKey | de.lmu.ifi.dbs.knowing.debug.core/src/de/lmu/ifi/dbs/knowing/debug/core/launching/DPULaunchConfigurationDelegate.java:110 | `dpu.parameters.` followed by exactly the parameter key |
| Delegate.ParameterKeyDistinct | de.lmu.ifi.dbs.knowing.debug.core/src/de/lmu/ifi/dbs/knowing/debug/core/launching/DPULaunchConfigurationDelegate.java:104-110 | `dpu.parameters.<k>` never equals a fixed key, and distinct `k` give distinct keys |
| Delegate.DescribesLaunchUnique | de.lmu.ifi.dbs.knowing.debug.core/src/de/lmu/ifi/dbs/knowing/debug/core/launching/DPULaunchConfigurationDelegate.java:103-111 | the description of the generated configuration determines one map |
| Delegate.DescribesLaunchPut | de.lmu.ifi.dbs.knowing.debug.core/src/de/lmu/ifi/dbs/knowing/debug/core/launching/DPULaunchConfigurationDelegate.java:109-111 | putting one more parameter into a described configuration describes the map with that parameter put |
| Delegate.BuildConfMap | de.lmu.ifi.dbs.knowing.debug.core/src/de/lmu/ifi/dbs/knowing/debug/core/launching/DPULaunchConfigurationDelegate.java:103-111 | exactly `dpu.name`, `dpu.uri`, `dpu.executionpath` and one `dpu.parameters.<k>` per parameter key, each with its (last) value |
| Delegate.ExecutionPathOf | de.lmu.ifi.dbs.knowing.debug.core/src/de/lmu/ifi/dbs/knowing/debug/core/launching/DPULaunchConfigurationDelegate.java:83 | the stored execution path, or user.home when the attribute is absent |
| Delegate.Resolve | de.lmu.ifi.dbs.knowing.debug.core/src/de/lmu/ifi/dbs/knowing/debug/core/launching/DPULaunchConfigurationDelegate.java:115 | `name` at the end, and a non-empty directory as prefix followed by one separator |
| Delegate.AbsolutePath | de.lmu.ifi.dbs.knowing.debug.core/src/de/lmu/ifi/dbs/knowing/debug/core/launching/DPULaunchConfigurationDelegate.java:123 | the path itself when absolute, otherwise resolved against the working directory; the result ends with the path and is absolute when the working directory is |
| Delegate.ApplicationConfPath | de.lmu.ifi.dbs.knowing.debug.core/src/de/lmu/ifi/dbs/knowing/debug/core/launching/DPULaunchConfigurationDelegate.java:115 | the path ends in `application.conf` and lies directly inside the execution path |
| Delegate.VmArguments | de.lmu.ifi.dbs.knowing.debug.core/src/de/lmu/ifi/dbs/knowing/debug/core/launching/DPULaunchConfigurationDelegate.java:123 | the old arguments (or "null" when absent), a space and exactly `-D<key>=<path>`, nothing inserted |
| Delegate.LastWordAppend | de.lmu.ifi.dbs.knowing.debug.core/src/de/lmu/ifi/dbs/knowing/debug/core/launching/DPULaunchConfigurationDelegate.java:123 | after appending a space and a word without spaces, that word is the last argument |
| Delegate.VmArgumentsAppendFlag | de.lmu.ifi.dbs.knowing.debug.core/src/de/lmu/ifi/dbs/knowing/debug/core/launching/DPULaunchConfigurationDelegate.java:123 | when neither key nor path holds a space, the last argument is exactly `-D<key>=<path>` |
| Delegate.VmArgumentsSpaceInPath | de.lmu.ifi.dbs.knowing.debug.core/src/de/lmu/ifi/dbs/knowing/debug/core/launching/DPULaunchConfigurationDelegate.java:123 | the path is not quoted: when it holds a space, the last argument is the text after that space, not the flag |
| Delegate.Launch | de.lmu.ifi.dbs.knowing.debug.core/src/de/lmu/ifi/dbs/knowing/debug/core/launching/DPULaunchConfigurationDelegate.java:79-128 | a failed check changes nothing; otherwise writes the described configuration to `<execPath>/application.conf` (a failed open changes nothing, a fault while writing leaves a damaged file, and neither stops the launch), and the launched copy differs from the configuration only in the VM arguments |
| Tab.ExecutionPathVerdict | de.lmu.ifi.dbs.knowing.debug.ui/src/main/java/de/lmu/ifi/dbs/knowing/debug/ui/launching/DPULaunchConfigurationTab.java:259-274 | silent iff null or empty; accepted iff an existing directory; otherwise the missing or not-a-directory message |
| Tab.DpuPathVerdict | de.lmu.ifi.dbs.knowing.debug.ui/src/main/java/de/lmu/ifi/dbs/knowing/debug/ui/launching/DPULaunchConfigurationTab.java:276-291 | silent iff null or empty; accepted iff an existing non-directory; otherwise the missing or must-be-a-file message |
| Tab.ValidatorsMirror | de.lmu.ifi.dbs.knowing.debug.ui/src/main/java/de/lmu/ifi/dbs/knowing/debug/ui/launching/DPULaunchConfigurationTab.java:259-291 | on a non-empty existing path exactly one validator accepts; on a non-empty missing one both reject |
| Tab.LaunchStricterThanTab | de.lmu.ifi.dbs.knowing.debug.core/src/de/lmu/ifi/dbs/knowing/debug/core/launching/DPULaunchConfigurationDelegate.java:96-100 | a non-empty execution path launch accepts is accepted by the tab; a directory the tab accepts but that is not writable is refused by launch; the empty path is never accepted by the tab, yet launch accepts it when it is a writable directory |
| Tab.OverriddenUnique | de.lmu.ifi.dbs.knowing.debug.ui/src/main/java/de/lmu/ifi/dbs/knowing/debug/ui/launching/DPULaunchConfigurationTab.java:245-251 | the override relation determines the merged list |
| Tab.OverriddenKeys | de.lmu.ifi.dbs.knowing.debug.ui/src/main/java/de/lmu/ifi/dbs/knowing/debug/ui/launching/DPULaunchConfigurationTab.java:245-251 | merging never adds a key: loaded keys the DPU lacks are ignored |
| Tab.OverriddenCompose | de.lmu.ifi.dbs.knowing.debug.ui/src/main/java/de/lmu/ifi/dbs/knowing/debug/ui/launching/DPULaunchConfigurationTab.java:197-199 | two merges in a row equal one merge with the second overrides winning |
| Tab.OverriddenBySelf | de.lmu.ifi.dbs.knowing.debug.ui/src/main/java/de/lmu/ifi/dbs/knowing/debug/ui/launching/DPULaunchConfigurationTab.java:227 | syncing a list with distinct keys against itself changes nothing |
| Tab.OverrideTakesLastMatch | de.lmu.ifi.dbs.knowing.debug.ui/src/main/java/de/lmu/ifi/dbs/knowing/debug/ui/launching/DPULaunchConfigurationTab.java:246-250 | a matched parameter takes the value of the last matching loaded entry |
| Tab.OverrideOfSnoc | de.lmu.ifi.dbs.knowing.debug.ui/src/main/java/de/lmu/ifi/dbs/knowing/debug/ui/launching/DPULaunchConfigurationTab.java:248-249 | looking at one more loaded parameter replaces the value on a key match and keeps it otherwise |
| Tab.OverrideValue | de.lmu.ifi.dbs.knowing.debug.ui/src/main/java/de/lmu/ifi/dbs/knowing/debug/ui/launching/DPULaunchConfigurationTab.java:247-250 | the key is kept; the value is the last match's, or unchanged when nothing matches |
| Tab.MergeParameters | de.lmu.ifi.dbs.knowing.debug.ui/src/main/java/de/lmu/ifi/dbs/knowing/debug/ui/launching/DPULaunchConfigurationTab.java:246-251 | same length and keys in order; matched keys take the loaded value, others keep theirs |
| Tab.FullPath | de.lmu.ifi.dbs.knowing.debug.ui/src/main/java/de/lmu/ifi/dbs/knowing/debug/ui/launching/DPULaunchConfigurationTab.java:226 | the workspace path `/<project>/<relative path>` |
| Tab.LaunchTab.ValidateExecutionPath | de.lmu.ifi.dbs.knowing.debug.ui/src/main/java/de/lmu/ifi/dbs/knowing/debug/ui/launching/DPULaunchConfigurationTab.java:259-274 | returns acceptance; sets, clears or (for null/empty) keeps the error message |
| Tab.LaunchTab.ValidateDPUPath | de.lmu.ifi.dbs.knowing.debug.ui/src/main/java/de/lmu/ifi/dbs/knowing/debug/ui/launching/DPULaunchConfigurationTab.java:276-291 | returns acceptance; sets, clears or (for null/empty) keeps the error message |
| Tab.LaunchTab.UpdateExecutionPath | de.lmu.ifi.dbs.knowing.debug.ui/src/main/java/de/lmu/ifi/dbs/knowing/debug/ui/launching/DPULaunchConfigurationTab.java:234-240 | on rejection the text and the dirty flag are unchanged; on acceptance the text is the path and the tab is dirty |
| Tab.LaunchTab.SyncParameters | de.lmu.ifi.dbs.knowing.debug.ui/src/main/java/de/lmu/ifi/dbs/knowing/debug/ui/launching/DPULaunchConfigurationTab.java:242-253 | no DPU: nothing changes; otherwise the tab's list is the DPU's own list, overridden from the loaded list |
| Tab.LaunchTab.SyncStored | de.lmu.ifi.dbs.knowing.debug.ui/src/main/java/de/lmu/ifi/dbs/knowing/debug/ui/launching/DPULaunchConfigurationTab.java:199 | the DPU's parameters end overridden by the stored map and the tab's list is that list; nothing changes without a DPU |
| Tab.LaunchTab.Update | de.lmu.ifi.dbs.knowing.debug.ui/src/main/java/de/lmu/ifi/dbs/knowing/debug/ui/launching/DPULaunchConfigurationTab.java:220-232 | no file or a failed load changes nothing; otherwise shows the DPU's name and full path, and the tab's list is the DPU's own |
| Tab.LaunchTab.PerformApply | de.lmu.ifi.dbs.knowing.debug.ui/src/main/java/de/lmu/ifi/dbs/knowing/debug/ui/launching/DPULaunchConfigurationTab.java:210-218 | no DPU file: nothing changes; otherwise exactly the four attributes are written and the tab is clean |
| Tab.LaunchTab.InitializeFrom | de.lmu.ifi.dbs.knowing.debug.ui/src/main/java/de/lmu/ifi/dbs/knowing/debug/ui/launching/DPULaunchConfigurationTab.java:190-203 | a failed cast in the lookup escapes and changes nothing; otherwise the DPU file is the lookup's, the execution path defaults to user.home and the parameters to the empty map, the name and path fields show the loaded DPU (unchanged when none loads), and the DPU's parameters end overridden by the stored map |

## Findings

| source | as written | input that shows it | evidently intended | confidence | as-written member | corrected member |
|---|---|---|---|---|---|---|
| de.lmu.ifi.dbs.knowing.debug.core/src/de/lmu/ifi/dbs/knowing/debug/core/launching/DPULaunchConfigurationDelegate.java:85-87 | `dpuFile.exists()` is called on the result of `findDPUFile`, which is null for a null project name, a null path or a missing member | a configuration without the `knowing.dpu.project` attribute | launch fails with "DPU doesn't exist!" | medium, not executed | Delegate.ExistenceCheckAsWritten | Delegate.Precheck |

## Left out

- Rendering the configuration with Typesafe Config (`parseMap`, `render`) is not modelled. The written file holds the key/value map itself. `parseMap` would also reject a parameter key that is a prefix of another at a dot (`a` and `a.b`); the model does not capture that.
- Real file I/O, the `Files.*` probes and the workspace lookup are replaced by state: the `FileSystem` class and the `Workspace` map. An I/O fault is the `fault` parameter: at open or while writing.
- The OSGi launch (`super.launch`) is the `delegateFault` parameter. What it does with the copy is not part of this model.
- Logging and `printStackTrace` are not modelled.
- The values of `LaunchConfiguration.VM_ARGUMENTS_KEY` and `APPLICATION_CONF_FILE` are not part of this model; they are the `LauncherKeys` parameter.
- `System.getProperty("user.home")` and the working directory are the `Platform` parameter.
- Delegate.AbsolutePath: does not normalise `.` or `..` segments, because `Path.toAbsolutePath` does not either. It does not model a path made only of separators.
- Delegate.Resolve: paths are compared as raw strings. `Paths.get` collapses repeated separators and drops a trailing one, and `findMember` ignores a trailing separator; the model does neither, so `/x//y` and `/x/y` are different paths here. Relative paths, the empty path included, are looked up in the file system's kinds as written, not resolved against the working directory.
- Delegate.Launch: the messages of the thrown `CoreException`s are not modelled word for word. A missing DPU is reported as `DpuNotFound`, the corrected check of the Findings row, where the code throws a null dereference at line 86; the message with the location URI is never reached.
- Delegate.LoadDPU: XML parsing and the Sapphire `copy` are an abstract lookup of the stored descriptor. A `Dpu` is a value, so the returned copy cannot share state with the original.
- An attribute stored with the wrong type (a `CoreException` from `getAttribute`) is not modelled. String and map attributes live in separate maps.
- `initializeFrom` catches `CoreException` and only prints it; the model has no such exception to catch. The `ClassCastException` of `findDPUFile` is not caught and escapes; that is modelled.
- A descriptor parameter without key or value content (a null in Java) is not modelled: keys and values are always strings here. In the code a null key makes the comparison at line 248 of the tab throw, and launch writes `dpu.parameters.null`.
- Delegate.VmArguments: how the launcher splits the argument string is not part of this model. `VmArgumentsSpaceInPath` shows that an execution path holding a space does not end the string with the flag as one argument.
- Tab.LaunchTab.SyncParameters: the Java code overwrites values in place in parameter objects that the DPU and the tab share. The model replaces the DPU value and the tab's list together, and `Valid` states that they stay equal. Because Java iterates the list against itself, same-key entries all end with the last one's value, which is also what the model gives.
- UI work is not modelled: widget construction, listeners, `setDefaults`, `updateLaunchConfigurationDialog`, and `propertyViewer.setInput`.
- The `setText` calls on the DPU path and execution path fields fire their modify listeners. Those listeners validate the new text again, which may change the error message, and mark the tab dirty. The model leaves them out, so `Update` does not set `dirty` and `InitializeFrom` sets it only when the execution path validates.
- Java `HashMap` iteration order is unspecified. `StringToParameters` chooses entries in an arbitrary order, and `EntryListsArePermutations` shows that the order is all that can differ.
