/**
 * DPULaunchConfigurationTab: the state behind the launch configuration tab — the chosen DPU
 * file, the loaded DPU, its parameter list, the three text fields, the dirty flag and the
 * error message — and the methods that update it.
 */
module Tab {
  import opened Wrappers
  import opened Codec
  import opened Host
  import opened Delegate

  const ExecutionPathMissing: string := "Execution path doesn't exists."
  const ExecutionPathNotADirectory: string := "Execution path must be a directory."
  const DpuMissing: string := "DPU doesn't exist."
  const DpuNotAFile: string := "DPU must be a file."

  /** What a validator decides: nothing to say (null or empty), an error, or acceptance. */
  datatype Verdict = Silent | Rejected(message: string) | Accepted

  /** validateExecutionPath: accepts exactly an existing directory. */
  function ExecutionPathVerdict(kinds: map<string, Kind>, path: Option<string>): (v: Verdict)
    ensures v.Silent? <==> path.None? || path.value == []
    ensures v.Accepted? <==> path.Some? && path.value != [] && IsDirectory(kinds, path.value)
    ensures v.Rejected? ==>
              v.message == if Exists(kinds, path.value) then ExecutionPathNotADirectory
                           else ExecutionPathMissing
  {
    if path.None? || path.value == [] then Silent
    else if !Exists(kinds, path.value) then Rejected(ExecutionPathMissing)
    else if !IsDirectory(kinds, path.value) then Rejected(ExecutionPathNotADirectory)
    else Accepted
  }

  /** validateDPUPath: accepts exactly an existing path that is not a directory. */
  function DpuPathVerdict(kinds: map<string, Kind>, path: Option<string>): (v: Verdict)
    ensures v.Silent? <==> path.None? || path.value == []
    ensures v.Accepted? <==>
              path.Some? && path.value != [] && Exists(kinds, path.value) && !IsDirectory(kinds, path.value)
    ensures v.Rejected? ==>
              v.message == if Exists(kinds, path.value) then DpuNotAFile else DpuMissing
  {
    if path.None? || path.value == [] then Silent
    else if !Exists(kinds, path.value) then Rejected(DpuMissing)
    else if IsDirectory(kinds, path.value) then Rejected(DpuNotAFile)
    else Accepted
  }

  /** The error message after a validator: unchanged, set, or cleared. */
  function Reported(before: Option<string>, v: Verdict): Option<string> {
    match v
    case Silent => before
    case Rejected(message) => Some(message)
    case Accepted => None
  }

  /**
   * The two validators mirror each other: on an existing, non-empty path exactly one of them
   * accepts, and on a missing one both reject.
   */
  lemma ValidatorsMirror(kinds: map<string, Kind>, path: string)
    requires path != []
    ensures Exists(kinds, path) ==>
              (ExecutionPathVerdict(kinds, Some(path)).Accepted? <==> !DpuPathVerdict(kinds, Some(path)).Accepted?)
    ensures !Exists(kinds, path) ==>
              ExecutionPathVerdict(kinds, Some(path)).Rejected? && DpuPathVerdict(kinds, Some(path)).Rejected?
  {
  }

  /**
   * On a non-empty execution path launch is stricter than the tab: a path launch accepts is
   * one the tab accepts, while the tab accepts a directory that launch then refuses for not
   * being writable. The empty path is the exception: the tab never accepts it, while launch
   * takes it as a directory whenever the file system says so (Java resolves it to the
   * working directory).
   */
  lemma LaunchStricterThanTab(ws: Workspace, kinds: map<string, Kind>, writable: set<string>,
                              projectName: Option<string>, relativePath: Option<string>, execPath: string)
    ensures execPath != [] && Precheck(ws, kinds, writable, projectName, relativePath, execPath).Success? ==>
              ExecutionPathVerdict(kinds, Some(execPath)).Accepted?
    ensures !ExecutionPathVerdict(kinds, Some([])).Accepted?
    ensures var found := FindDPUFile(ws, projectName, relativePath);
            found.Success? && found.value.Some? && LoadDPU(ws, found.value.value).Success?
            && IsDirectory(kinds, []) && IsWritable(kinds, writable, []) ==>
              Precheck(ws, kinds, writable, projectName, relativePath, []).Success?
    ensures ExecutionPathVerdict(kinds, Some(execPath)).Accepted? && execPath !in writable ==>
              Precheck(ws, kinds, writable, projectName, relativePath, execPath).Failure?
  {
  }

  /**
   * `merged` is `ps` with overrides applied: same length, same keys in the same order; a
   * parameter whose key is overridden takes the override's value, every other keeps its own.
   */
  ghost predicate Overridden(merged: seq<Parameter>, ps: seq<Parameter>, overrides: map<string, string>) {
    && |merged| == |ps|
    && (forall i :: 0 <= i < |ps| ==> merged[i].key == ps[i].key)
    && (forall i :: 0 <= i < |ps| && ps[i].key in overrides ==> merged[i].value == overrides[ps[i].key])
    && (forall i :: 0 <= i < |ps| && ps[i].key !in overrides ==> merged[i].value == ps[i].value)
  }

  /** The override relation fixes its result. */
  lemma OverriddenUnique(m1: seq<Parameter>, m2: seq<Parameter>, ps: seq<Parameter>,
                         overrides: map<string, string>)
    requires Overridden(m1, ps, overrides) && Overridden(m2, ps, overrides)
    ensures m1 == m2
  {
    forall i | 0 <= i < |ps| ensures m1[i] == m2[i] {
      if ps[i].key in overrides {
        assert m1[i].value == m2[i].value;
      }
    }
  }

  /** Overriding never changes the set of keys: overrides for keys the list lacks are ignored. */
  lemma OverriddenKeys(merged: seq<Parameter>, ps: seq<Parameter>, overrides: map<string, string>)
    requires Overridden(merged, ps, overrides)
    ensures KeySet(merged) == KeySet(ps)
  {
    forall k | k in KeySet(ps) ensures k in KeySet(merged) {
      var i :| 0 <= i < |ps| && ps[i].key == k;
      assert merged[i] in merged;
    }
    forall k | k in KeySet(merged) ensures k in KeySet(ps) {
      var i :| 0 <= i < |merged| && merged[i].key == k;
      assert ps[i] in ps;
    }
  }

  /** Applying overrides `a` and then `b` is applying `a + b` (later wins). */
  lemma OverriddenCompose(m1: seq<Parameter>, m2: seq<Parameter>, ps: seq<Parameter>,
                          a: map<string, string>, b: map<string, string>)
    requires Overridden(m1, ps, a) && Overridden(m2, m1, b)
    ensures Overridden(m2, ps, a + b)
  {
  }

  /** A list whose keys are distinct is its own override: reloading its own values is a no-op. */
  lemma OverriddenBySelf(ps: seq<Parameter>)
    requires DistinctKeys(ps)
    ensures Overridden(ps, ps, ToMap(ps))
  {
    forall i | 0 <= i < |ps| ensures ToMap(ps)[ps[i].key] == ps[i].value {
      ToMapLastWins(ps, i);
    }
  }

  /**
   * A DPU parameter that the loaded list matches takes the value of the last matching loaded
   * entry.
   */
  lemma OverrideTakesLastMatch(merged: seq<Parameter>, ps: seq<Parameter>, loaded: seq<Parameter>,
                               i: int, j: int)
    requires Overridden(merged, ps, ToMap(loaded))
    requires 0 <= i < |ps| && 0 <= j < |loaded| && loaded[j].key == ps[i].key
    requires forall j' :: j < j' < |loaded| ==> loaded[j'].key != loaded[j].key
    ensures merged[i] == Parameter(ps[i].key, loaded[j].value)
  {
    ToMapLastWins(loaded, j);
  }

  /** The value `overrides` gives `key`, or `own` when it has none. */
  function OverrideOf(overrides: map<string, string>, key: string, own: string): string {
    if key in overrides then overrides[key] else own
  }

  /** Looking at one more loaded parameter: a match replaces the value, as a later put would. */
  lemma {:induction false} OverrideOfSnoc(loaded: seq<Parameter>, j: int, key: string, own: string)
    requires 0 <= j < |loaded|
    ensures OverrideOf(ToMap(loaded[..j + 1]), key, own)
            == if key == loaded[j].key then loaded[j].value else OverrideOf(ToMap(loaded[..j]), key, own)
  {
    assert loaded[..j + 1] == loaded[..j] + [loaded[j]];
    ToMapSnoc(loaded[..j], loaded[j]);
  }

  /**
   * The inner loop of syncParameters: the parameter takes the value of each loaded parameter
   * with its key in turn, so it ends with the last one's, or keeps its own when none matches.
   */
  method OverrideValue(p: Parameter, loaded: seq<Parameter>) returns (q: Parameter)
    ensures q.key == p.key
    ensures p.key in ToMap(loaded) ==> q.value == ToMap(loaded)[p.key]
    ensures p.key !in ToMap(loaded) ==> q.value == p.value
  {
    q := p;
    var j := 0;
    while j < |loaded|
      invariant 0 <= j <= |loaded|
      invariant q == Parameter(p.key, OverrideOf(ToMap(loaded[..j]), p.key, p.value))
    {
      OverrideOfSnoc(loaded, j, p.key, p.value);
      if q.key == loaded[j].key {
        q := q.(value := loaded[j].value);
      }
      j := j + 1;
    }
    assert loaded[..j] == loaded;
  }

  /**
   * The nested loop of syncParameters: every parameter of `ps` is overridden from the loaded
   * list.
   */
  method MergeParameters(ps: seq<Parameter>, loaded: seq<Parameter>) returns (merged: seq<Parameter>)
    ensures Overridden(merged, ps, ToMap(loaded))
  {
    ghost var overrides := ToMap(loaded);
    merged := ps;
    var i := 0;
    while i < |merged|
      invariant 0 <= i <= |merged| == |ps|
      invariant forall k :: 0 <= k < i ==>
                  merged[k] == Parameter(ps[k].key, OverrideOf(overrides, ps[k].key, ps[k].value))
      invariant forall k :: i <= k < |ps| ==> merged[k] == ps[k]
    {
      var p := OverrideValue(merged[i], loaded);
      merged := merged[i := p];
      i := i + 1;
    }
  }

  /** The DPU that update loads: none without a file or when loading fails. */
  function LoadedFrom(ws: Workspace, file: Option<DpuFile>): Option<Dpu> {
    if file.Some? && LoadDPU(ws, file.value).Success? then Some(LoadDPU(ws, file.value).value) else None
  }

  /** The full workspace path of a DPU file (IFile.getFullPath). */
  function FullPath(file: DpuFile): string {
    "/" + file.project + "/" + file.relativePath
  }

  class LaunchTab {
    var dpuFile: Option<DpuFile>
    var dpu: Option<Dpu>
    var parameters: Option<seq<Parameter>>
    /** The contents of the text fields txtDPU, txtDPUPath and txtExecutionPath. */
    var dpuName: string
    var dpuPath: string
    var executionPath: string
    var dirty: bool
    var errorMessage: Option<string>

    /**
     * Between calls, `parameters` is the loaded DPU's own parameter list (the two alias), and
     * it is null exactly while no DPU is loaded.
     */
    ghost predicate Valid()
      reads this
    {
      parameters == (if dpu.Some? then Some(dpu.value.parameters) else None)
    }

    constructor ()
      ensures Valid()
      ensures dpuFile.None? && dpu.None? && parameters.None?
      ensures dpuName == [] && dpuPath == [] && executionPath == []
      ensures !dirty && errorMessage.None?
    {
      dpuFile, dpu, parameters := None, None, None;
      dpuName, dpuPath, executionPath := [], [], [];
      dirty, errorMessage := false, None;
    }

    /** validateExecutionPath: returns whether the path is usable and reports why not. */
    method ValidateExecutionPath(fs: FileSystem, path: Option<string>) returns (ok: bool)
      modifies this`errorMessage
      ensures ok == ExecutionPathVerdict(fs.kinds, path).Accepted?
      ensures errorMessage == Reported(old(errorMessage), ExecutionPathVerdict(fs.kinds, path))
    {
      if path.None? || path.value == [] {
        return false;
      }
      if !Exists(fs.kinds, path.value) {
        errorMessage := Some(ExecutionPathMissing);
        return false;
      }
      if !IsDirectory(fs.kinds, path.value) {
        errorMessage := Some(ExecutionPathNotADirectory);
        return false;
      }
      errorMessage := None;
      return true;
    }

    /** validateDPUPath: returns whether the path names a file and reports why not. */
    method ValidateDPUPath(fs: FileSystem, path: Option<string>) returns (ok: bool)
      modifies this`errorMessage
      ensures ok == DpuPathVerdict(fs.kinds, path).Accepted?
      ensures errorMessage == Reported(old(errorMessage), DpuPathVerdict(fs.kinds, path))
    {
      if path.None? || path.value == [] {
        return false;
      }
      if !Exists(fs.kinds, path.value) {
        errorMessage := Some(DpuMissing);
        return false;
      }
      if IsDirectory(fs.kinds, path.value) {
        errorMessage := Some(DpuNotAFile);
        return false;
      }
      errorMessage := None;
      return true;
    }

    /** updateExecutionPath: takes the path into the text field only if it validates. */
    method UpdateExecutionPath(fs: FileSystem, path: Option<string>)
      modifies this`errorMessage, this`executionPath, this`dirty
      ensures errorMessage == Reported(old(errorMessage), ExecutionPathVerdict(fs.kinds, path))
      ensures ExecutionPathVerdict(fs.kinds, path).Accepted? ==> executionPath == path.value && dirty
      ensures !ExecutionPathVerdict(fs.kinds, path).Accepted? ==>
                executionPath == old(executionPath) && dirty == old(dirty)
    {
      var ok := ValidateExecutionPath(fs, path);
      if !ok {
        return;
      }
      executionPath := path.value;
      dirty := true;
    }

    /**
     * syncParameters: with no DPU loaded nothing happens; otherwise the tab's list becomes the
     * DPU's own list, with each parameter overridden from the loaded list.
     */
    method SyncParameters(loaded: seq<Parameter>)
      modifies this`parameters, this`dpu
      ensures old(dpu).None? ==> dpu == old(dpu) && parameters == old(parameters)
      ensures old(dpu).Some? ==>
                && Valid() && parameters.Some? && dpu.value.name == old(dpu).value.name
                && Overridden(dpu.value.parameters, old(dpu).value.parameters, ToMap(loaded))
      ensures old(Valid()) ==> Valid()
    {
      if dpu.None? {
        return;
      }
      var merged := MergeParameters(dpu.value.parameters, loaded);
      dpu := Some(dpu.value.(parameters := merged));
      parameters := Some(merged);
    }

    /** Overrides the DPU's parameters from a stored parameter map (the last step of initializeFrom). */
    method SyncStored(stored: map<string, string>)
      modifies this`parameters, this`dpu
      ensures old(dpu).None? ==> dpu == old(dpu) && parameters == old(parameters)
      ensures old(dpu).Some? ==>
                && dpu.Some? && dpu.value.name == old(dpu).value.name
                && parameters == Some(dpu.value.parameters)
                && Overridden(dpu.value.parameters, old(dpu).value.parameters, stored)
      ensures old(Valid()) ==> Valid()
    {
      var loaded := StringToParameters(Some(stored));
      SyncParameters(loaded);
    }

    /**
     * update: loads the DPU named by `dpuFile` (a load failure is only printed and changes
     * nothing), shows its name and full path, and syncs the parameters with its own list.
     */
    method Update(ws: Workspace)
      modifies this`dpu, this`parameters, this`dpuName, this`dpuPath
      ensures LoadedFrom(ws, dpuFile).None? ==>
                dpu == old(dpu) && parameters == old(parameters)
                && dpuName == old(dpuName) && dpuPath == old(dpuPath)
      ensures LoadedFrom(ws, dpuFile).Some? ==>
                var d := LoadedFrom(ws, dpuFile).value;
                && Valid() && dpu.Some? && dpu.value.name == d.name
                && parameters == Some(dpu.value.parameters)
                && dpuName == d.name && dpuPath == FullPath(dpuFile.value)
                && Overridden(dpu.value.parameters, d.parameters, ToMap(d.parameters))
      ensures old(Valid()) ==> Valid()
    {
      if dpuFile.None? {
        return;
      }
      var loaded := LoadDPU(ws, dpuFile.value);
      if loaded.Failure? {
        return;
      }
      dpu := Some(loaded.value);
      dpuName := loaded.value.name;
      dpuPath := FullPath(dpuFile.value);
      SyncParameters(loaded.value.parameters);
    }

    /**
     * performApply: with no DPU file nothing is written; otherwise the project, the relative
     * path, the execution path text and the parameter map are stored and the tab is clean.
     */
    method PerformApply(configuration: LaunchConfiguration)
      modifies configuration, this`dirty
      ensures dpuFile.None? ==>
                configuration.strings == old(configuration.strings)
                && configuration.maps == old(configuration.maps) && dirty == old(dirty)
      ensures dpuFile.Some? ==>
                && configuration.strings == old(configuration.strings)[DpuProject := dpuFile.value.project]
                     [DpuPath := dpuFile.value.relativePath][DpuExecutionPath := executionPath]
                && configuration.maps == old(configuration.maps)[DpuParameters := ToMap(ListOrEmpty(parameters))]
                && !dirty
    {
      if dpuFile.None? {
        return;
      }
      configuration.SetString(DpuProject, dpuFile.value.project);
      configuration.SetString(DpuPath, dpuFile.value.relativePath);
      configuration.SetString(DpuExecutionPath, executionPath);
      var stored := ParametersToString(parameters);
      configuration.SetMap(DpuParameters, stored);
      dirty := false;
    }

    /**
     * initializeFrom: looks up the DPU file, loads it, takes the execution path (user.home
     * when the attribute is absent) and overrides the parameters from the stored map (empty
     * when absent). A failed cast in the lookup is not caught: it escapes before anything
     * is assigned, and is returned here as `escaped`.
     */
    method InitializeFrom(configuration: LaunchConfiguration, ws: Workspace, fs: FileSystem,
                          platform: Platform)
      returns (escaped: Option<LaunchError>)
      requires Valid()
      modifies this
      ensures Valid()
      ensures var found := FindDPUFile(ws, configuration.GetString(DpuProject, None),
                                       configuration.GetString(DpuPath, None));
              && (escaped.Some? <==> found.Failure?)
              && (found.Failure? ==> escaped == Some(found.error) && unchanged(this))
              && (found.Success? ==> dpuFile == found.value)
      ensures var path := configuration.GetString(DpuExecutionPath, Some(platform.userHome));
              escaped.None? ==>
              && errorMessage == Reported(old(errorMessage), ExecutionPathVerdict(fs.kinds, path))
              && (ExecutionPathVerdict(fs.kinds, path).Accepted? ==> executionPath == path.value && dirty)
              && (!ExecutionPathVerdict(fs.kinds, path).Accepted? ==>
                    executionPath == old(executionPath) && dirty == old(dirty))
      ensures var stored := configuration.GetMap(DpuParameters, map[]);
              escaped.None? ==>
              match LoadedFrom(ws, dpuFile)
              case Some(d) =>
                dpu.Some? && dpu.value.name == d.name
                && dpuName == d.name && dpuPath == FullPath(dpuFile.value)
                && Overridden(dpu.value.parameters, d.parameters, ToMap(d.parameters) + stored)
              case None =>
                dpuName == old(dpuName) && dpuPath == old(dpuPath)
                && if old(dpu).None? then dpu.None? && parameters.None?
                   else dpu.Some? && dpu.value.name == old(dpu).value.name
                        && Overridden(dpu.value.parameters, old(dpu).value.parameters, stored)
    {
      var projectName := configuration.GetString(DpuProject, None);
      var relativePath := configuration.GetString(DpuPath, None);
      var path := configuration.GetString(DpuExecutionPath, Some(platform.userHome));

      var found := FindDPUFile(ws, projectName, relativePath);
      if found.Failure? {
        return Some(found.error);
      }
      dpuFile := found.value;
      Update(ws);
      ghost var afterUpdate := dpu;
      UpdateExecutionPath(fs, path);
      var stored := configuration.GetMap(DpuParameters, map[]);
      SyncStored(stored);
      if LoadedFrom(ws, dpuFile).Some? {
        var d := LoadedFrom(ws, dpuFile).value;
        OverriddenCompose(afterUpdate.value.parameters, dpu.value.parameters, d.parameters,
                          ToMap(d.parameters), stored);
      }
      return None;
    }
  }
}
