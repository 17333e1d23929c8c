/**
 * DPULaunchConfigurationDelegate: locating and loading the DPU, validating the execution
 * directory, writing application.conf and handing an augmented VM argument string to the
 * OSGi launch.
 */
module Delegate {
  import opened Wrappers
  import opened Codec
  import opened Host

  /** Launch configuration attribute names. */
  const DpuProject: string := "knowing.dpu.project"
  const DpuPath: string := "knowing.dpu.path"
  const DpuExecutionPath: string := "knowing.dpu.executionpath"
  const DpuParameters: string := "knowing.dpu.parameters"

  /** Keys of the generated configuration. */
  const NameKey: string := "dpu.name"
  const UriKey: string := "dpu.uri"
  const ExecutionPathKey: string := "dpu.executionpath"
  const ParametersPrefix: string := "dpu.parameters."

  /** The file written into the execution directory. */
  const ApplicationConf: string := "application.conf"

  /**
   * The two names the launcher library defines (LaunchConfiguration.VM_ARGUMENTS_KEY and
   * LaunchConfiguration.APPLICATION_CONF_FILE); their values are not part of this model.
   */
  datatype LauncherKeys = LauncherKeys(vmArguments: string, applicationConfFile: string)

  /** The system property user.home and the process's working directory. */
  datatype Platform = Platform(userHome: string, workingDirectory: string)

  /** A handle on the DPU descriptor file (IFile). */
  datatype DpuFile = DpuFile(project: string, relativePath: string, locationUri: string)

  /**
   * Why a launch stops. The first four are the CoreExceptions launch throws; the others are
   * the failing OSGi launch and the two Java runtime exceptions a lookup can raise.
   */
  datatype LaunchError =
    | DpuNotFound
    | DpuLoadFailed
    | ExecutionPathNotDirectory
    | ExecutionPathNotWritable
    | DelegateFailed
    | NullHandle
    | NotAFile
  {
    /** The status message; the four checks of launch end theirs with '!'. */
    function Message(): (r: string)
      ensures r != []
      ensures DpuNotFound? || DpuLoadFailed? || ExecutionPathNotDirectory? || ExecutionPathNotWritable?
              <==> r[|r| - 1] == '!'
    {
      match this
      case DpuNotFound => "DPU doesn't exist!"
      case DpuLoadFailed => "Error loading DPU!"
      case ExecutionPathNotDirectory => "Execution path is a file!"
      case ExecutionPathNotWritable => "Execution path is not writeable!"
      case DelegateFailed => "OSGi launch failed"
      case NullHandle => "NullPointerException"
      case NotAFile => "ClassCastException"
    }
  }

  /**
   * findDPUFile: no handle when the project name or the relative path is null or names no
   * workspace member; the handle of the file it names; and a failed cast (ClassCastException)
   * when it names a folder or, with the empty path, the project itself.
   */
  function FindDPUFile(ws: Workspace, projectName: Option<string>, relativePath: Option<string>)
    : (r: Result<Option<DpuFile>, LaunchError>)
    ensures projectName.None? || relativePath.None? ==> r == Success(None)
    ensures r.Failure? <==>
              projectName.Some? && relativePath.Some?
              && MemberPath(projectName.value, relativePath.value) in ws
              && ws[MemberPath(projectName.value, relativePath.value)].Container?
    ensures r.Failure? ==> r.error == NotAFile
    ensures r.Success? && r.value.Some? <==>
              projectName.Some? && relativePath.Some?
              && MemberPath(projectName.value, relativePath.value) in ws
              && ws[MemberPath(projectName.value, relativePath.value)].File?
    ensures r.Success? && r.value.Some? ==>
              && r.value.value.project == projectName.value
              && r.value.value.relativePath == relativePath.value
              && r.value.value.locationUri == ws[MemberPath(projectName.value, relativePath.value)].locationUri
  {
    if projectName.None? || relativePath.None? then Success(None)
    else
      var path := MemberPath(projectName.value, relativePath.value);
      if path !in ws then Success(None)
      else match ws[path]
        case Container => Failure(NotAFile)
        case File(uri, _) => Success(Some(DpuFile(path.project, path.relativePath, uri)))
  }

  /**
   * loadDPU: the descriptor parsed from the file. The source copies the parsed model into a
   * fresh instance; a Dpu here is a value, so the copy can share nothing with the original.
   */
  function LoadDPU(ws: Workspace, file: DpuFile): (r: Result<Dpu, LaunchError>)
    ensures r.Failure? ==> r.error == DpuLoadFailed
    ensures var path := MemberPath(file.project, file.relativePath);
            && (r.Success? <==> path in ws && ws[path].File? && ws[path].descriptor.Some?)
            && (r.Success? ==> ws[path].descriptor == Some(r.value))
  {
    var path := MemberPath(file.project, file.relativePath);
    if path in ws && ws[path].File? && ws[path].descriptor.Some? then Success(ws[path].descriptor.value)
    else Failure(DpuLoadFailed)
  }

  /** What the checks at the start of launch hand on to the rest of it. */
  datatype Checked = Checked(file: DpuFile, dpu: Dpu)

  /**
   * The checks at the start of launch, in their order: finding the DPU must not fail its cast,
   * the DPU file must exist, must load, and the execution path must be a directory (a missing
   * path is not one) and writable.
   */
  function Precheck(ws: Workspace, kinds: map<string, Kind>, writable: set<string>,
                    projectName: Option<string>, relativePath: Option<string>, execPath: string)
    : (r: Result<Checked, LaunchError>)
    ensures var found := FindDPUFile(ws, projectName, relativePath);
            && (r == Failure(NotAFile) <==> found.Failure?)
            && (r == Failure(DpuNotFound) <==> found == Success(None))
            && (r == Failure(DpuLoadFailed) <==>
                  found.Success? && found.value.Some? && LoadDPU(ws, found.value.value).Failure?)
            && (r == Failure(ExecutionPathNotDirectory) <==>
                  found.Success? && found.value.Some? && LoadDPU(ws, found.value.value).Success?
                  && !IsDirectory(kinds, execPath))
            && (r == Failure(ExecutionPathNotWritable) <==>
                  found.Success? && found.value.Some? && LoadDPU(ws, found.value.value).Success?
                  && IsDirectory(kinds, execPath) && !IsWritable(kinds, writable, execPath))
            && (r.Success? <==>
                  found.Success? && found.value.Some? && LoadDPU(ws, found.value.value).Success?
                  && IsDirectory(kinds, execPath) && IsWritable(kinds, writable, execPath))
            && (r.Success? ==> r.value == Checked(found.value.value, LoadDPU(ws, found.value.value).value))
  {
    var found := FindDPUFile(ws, projectName, relativePath);
    if found.Failure? then Failure(found.error)
    else if found.value.None? then Failure(DpuNotFound)
    else
      var loaded := LoadDPU(ws, found.value.value);
      if loaded.Failure? then Failure(loaded.error)
      else if !IsDirectory(kinds, execPath) then Failure(ExecutionPathNotDirectory)
      else if !IsWritable(kinds, writable, execPath) then Failure(ExecutionPathNotWritable)
      else Success(Checked(found.value.value, loaded.value))
  }

  /**
   * The existence check of launch as written: it calls `exists()` on the handle findDPUFile
   * returns, and that handle is null exactly when the DPU is missing, so the dereference throws
   * before the check can report anything.
   */
  function ExistenceCheckAsWritten(found: Option<DpuFile>): (r: Result<DpuFile, LaunchError>)
    ensures r.Failure? <==> found.None?
    ensures r.Failure? ==> r.error == NullHandle
    ensures r.Success? ==> r.value == found.value
  {
    match found
    case None => Failure(NullHandle)
    case Some(file) => Success(file)
  }

  /**
   * A missing DPU (null project, null path, or no such workspace member) never reaches the
   * "DPU doesn't exist!" error as written; Precheck reports it with that error instead.
   */
  lemma MissingDpuFinding(ws: Workspace, kinds: map<string, Kind>, writable: set<string>,
                          projectName: Option<string>, relativePath: Option<string>, execPath: string)
    requires FindDPUFile(ws, projectName, relativePath) == Success(None)
    ensures ExistenceCheckAsWritten(FindDPUFile(ws, projectName, relativePath).value) == Failure(NullHandle)
    ensures Precheck(ws, kinds, writable, projectName, relativePath, execPath) == Failure(DpuNotFound)
    ensures Precheck(ws, kinds, writable, projectName, relativePath, execPath).error.Message()
            == "DPU doesn't exist!"
  {
  }

  /** The configuration key of a DPU parameter. */
  function ParameterKey(key: string): (r: string)
    ensures |r| == |ParametersPrefix| + |key|
    ensures r[..|ParametersPrefix|] == ParametersPrefix && r[|ParametersPrefix|..] == key
  {
    ParametersPrefix + key
  }

  /** Parameter keys never clash with each other nor with the three fixed keys. */
  lemma ParameterKeyDistinct(k: string, k': string)
    ensures ParameterKey(k) !in {NameKey, UriKey, ExecutionPathKey}
    ensures ParameterKey(k) == ParameterKey(k') ==> k == k'
  {
    assert ParameterKey(k)[4] == 'p';
    assert ParameterKey(k)[|ParametersPrefix|..] == k;
    assert ParameterKey(k')[|ParametersPrefix|..] == k';
  }

  /**
   * The generated configuration holds exactly `dpu.name`, `dpu.uri`, `dpu.executionpath` and
   * one `dpu.parameters.<k>` per key `k` of `params`, each with its value.
   */
  ghost predicate DescribesLaunch(conf: map<string, string>, name: string, uri: string,
                                  execPath: string, params: map<string, string>)
  {
    && conf.Keys == {NameKey, UriKey, ExecutionPathKey} + (set k | k in params :: ParameterKey(k))
    && NameKey in conf && conf[NameKey] == name
    && UriKey in conf && conf[UriKey] == uri
    && ExecutionPathKey in conf && conf[ExecutionPathKey] == execPath
    && forall k | k in params :: ParameterKey(k) in conf && conf[ParameterKey(k)] == params[k]
  }

  /** The description fixes the configuration: there is exactly one map it describes. */
  lemma DescribesLaunchUnique(c1: map<string, string>, c2: map<string, string>, name: string,
                              uri: string, execPath: string, params: map<string, string>)
    requires DescribesLaunch(c1, name, uri, execPath, params)
    requires DescribesLaunch(c2, name, uri, execPath, params)
    ensures c1 == c2
  {
    forall key | key in c1 ensures c1[key] == c2[key] {
      if key !in {NameKey, UriKey, ExecutionPathKey} {
        var k :| k in params && key == ParameterKey(k);
      }
    }
  }

  /** One more parameter put into a described configuration adds or overwrites its entry. */
  lemma {:induction false} DescribesLaunchPut(conf: map<string, string>, name: string, uri: string, execPath: string,
                           params: map<string, string>, p: Parameter)
    requires DescribesLaunch(conf, name, uri, execPath, params)
    ensures DescribesLaunch(conf[ParameterKey(p.key) := p.value], name, uri, execPath,
                            params[p.key := p.value])
  {
    var key := ParameterKey(p.key);
    var params' := params[p.key := p.value];
    var conf' := conf[key := p.value];
    ParameterKeyDistinct(p.key, p.key);
    var before := set k | k in params :: ParameterKey(k);
    var after := set k | k in params' :: ParameterKey(k);
    assert after == before + {key} by {
      forall x | x in after ensures x in before + {key} {
        var k :| k in params' && x == ParameterKey(k);
        if k != p.key {
          assert k in params;
        }
      }
      forall x | x in before + {key} ensures x in after {
        if x != key {
          var k :| k in params && x == ParameterKey(k);
          assert k in params';
        }
      }
    }
    forall k | k in params' ensures ParameterKey(k) in conf' && conf'[ParameterKey(k)] == params'[k] {
      if k != p.key {
        ParameterKeyDistinct(k, p.key);
      }
    }
  }

  /**
   * The configuration map launch builds: the three fixed entries, then one put per
   * parameter, so a repeated parameter key ends with its last value.
   */
  method BuildConfMap(name: string, uri: string, execPath: string, parameters: seq<Parameter>)
    returns (conf: map<string, string>)
    ensures DescribesLaunch(conf, name, uri, execPath, ToMap(parameters))
  {
    conf := map[NameKey := name, UriKey := uri, ExecutionPathKey := execPath];
    var i := 0;
    while i < |parameters|
      invariant 0 <= i <= |parameters|
      invariant DescribesLaunch(conf, name, uri, execPath, ToMap(parameters[..i]))
    {
      var p := parameters[i];
      DescribesLaunchPut(conf, name, uri, execPath, ToMap(parameters[..i]), p);
      ToMapSnoc(parameters[..i], p);
      assert parameters[..i + 1] == parameters[..i] + [p];
      conf := conf[ParameterKey(p.key) := p.value];
      i := i + 1;
    }
    assert parameters[..i] == parameters;
  }

  /**
   * Path.resolve: `name` inside directory `dir`, joined by exactly one separator; an empty
   * directory leaves `name` as it is.
   */
  function Resolve(dir: string, name: string): (r: string)
    ensures |r| >= |name| && r[|r| - |name|..] == name
    ensures dir == [] ==> r == name
    ensures dir != [] ==>
              && |dir| + |name| <= |r| <= |dir| + 1 + |name|
              && r[..|dir|] == dir && r[|r| - |name| - 1] == '/'
  {
    if dir == [] then name
    else if dir[|dir| - 1] == '/' then dir + name
    else dir + "/" + name
  }

  /**
   * Path.toAbsolutePath: an absolute path stays as it is, a relative one is resolved against
   * the working directory, so the result is absolute whenever the working directory is.
   */
  function AbsolutePath(path: string, workingDirectory: string): (r: string)
    ensures |r| >= |path| && r[|r| - |path|..] == path
    ensures |path| > 0 && path[0] == '/' ==> r == path
    ensures |workingDirectory| > 0 && workingDirectory[0] == '/' ==> |r| > 0 && r[0] == '/'
  {
    if |path| > 0 && path[0] == '/' then path else Resolve(workingDirectory, path)
  }

  /** `<execPath>/application.conf` */
  function ApplicationConfPath(execPath: string): (r: string)
    ensures |r| >= |ApplicationConf| && r[|r| - |ApplicationConf|..] == ApplicationConf
    ensures execPath != [] ==>
              |r| > |execPath| + |ApplicationConf| - 1 && r[..|execPath|] == execPath
              && r[|r| - |ApplicationConf| - 1] == '/'
  {
    Resolve(execPath, ApplicationConf)
  }

  /**
   * The new VM argument string: the old one (a null string concatenates as "null"), a space,
   * and one `-D<property>=<path>` flag.
   */
  function VmArguments(vmArguments: Option<string>, property: string, confPath: string): (r: string)
    ensures var base := vmArguments.GetOr("null");
            && |r| == |base| + 4 + |property| + |confPath|
            && r[..|base|] == base && r[|base|] == ' '
            && r[|base| + 1..] == "-D" + property + "=" + confPath
  {
    vmArguments.GetOr("null") + " -D" + property + "=" + confPath
  }

  /** The text after the last space. */
  function LastWord(s: string): string {
    if s == [] then []
    else if s[|s| - 1] == ' ' then []
    else LastWord(s[..|s| - 1]) + [s[|s| - 1]]
  }

  lemma {:induction false} LastWordAppend(s: string, w: string)
    requires ' ' !in w
    ensures LastWord(s + " " + w) == w
  {
    if w == [] {
      assert (s + " " + w)[|s + " " + w| - 1] == ' ';
    } else {
      var w' := w[..|w| - 1];
      LastWordAppend(s, w');
      assert (s + " " + w)[..|s + " " + w| - 1] == s + " " + w';
      assert w' + [w[|w| - 1]] == w;
    }
  }

  /**
   * When neither the property name nor the path holds a space, the last argument of the new
   * VM argument string is exactly the added flag.
   */
  lemma VmArgumentsAppendFlag(vmArguments: Option<string>, property: string, confPath: string)
    ensures ' ' !in property && ' ' !in confPath ==>
              LastWord(VmArguments(vmArguments, property, confPath)) == "-D" + property + "=" + confPath
  {
    var base := vmArguments.GetOr("null");
    var flag := "-D" + property + "=" + confPath;
    assert VmArguments(vmArguments, property, confPath) == base + " " + flag;
    if ' ' !in property && ' ' !in confPath {
      assert ' ' !in flag by {
        forall j | 0 <= j < |flag| ensures flag[j] != ' ' {
          if j >= 2 && j < 2 + |property| {
            assert flag[j] == property[j - 2];
          } else if j >= 3 + |property| {
            assert flag[j] == confPath[j - 3 - |property|];
          }
        }
      }
      LastWordAppend(base, flag);
    }
  }

  /**
   * The path in the flag is not quoted: when it holds a space, the last argument is only the
   * text after that space, not the flag.
   */
  lemma VmArgumentsSpaceInPath(vmArguments: Option<string>, property: string, dir: string, rest: string)
    requires ' ' !in rest
    ensures LastWord(VmArguments(vmArguments, property, dir + " " + rest)) == rest
    ensures rest != "-D" + property + "=" + dir + " " + rest
  {
    var base := vmArguments.GetOr("null");
    assert VmArguments(vmArguments, property, dir + " " + rest)
           == (base + " -D" + property + "=" + dir) + " " + rest;
    LastWordAppend(base + " -D" + property + "=" + dir, rest);
  }

  /** The execution path launch uses: the stored attribute, or user.home when absent. */
  function ExecutionPathOf(configuration: LaunchConfiguration, platform: Platform): (r: string)
    reads configuration
    ensures DpuExecutionPath in configuration.strings ==> r == configuration.strings[DpuExecutionPath]
    ensures DpuExecutionPath !in configuration.strings ==> r == platform.userHome
  {
    configuration.GetString(DpuExecutionPath, Some(platform.userHome)).value
  }

  /**
   * launch: rejects, before anything is written or launched, a missing or unreadable DPU and
   * an execution path that is not a writable directory. Otherwise it writes application.conf
   * into the execution path (a failed write is only logged; once the file was opened it has
   * been created or truncated, so a fault while writing leaves it damaged), then launches a working copy of
   * the configuration whose VM arguments carry the flag naming that file; the configuration
   * itself is never changed.
   */
  method Launch(configuration: LaunchConfiguration, ws: Workspace, fs: FileSystem,
                platform: Platform, keys: LauncherKeys, fault: IoFault, delegateFault: bool)
    returns (outcome: Result<LaunchConfiguration, LaunchError>)
    modifies fs
    ensures var execPath := ExecutionPathOf(configuration, platform);
            var checked := Precheck(ws, old(fs.kinds), old(fs.writable),
                                    configuration.GetString(DpuProject, None),
                                    configuration.GetString(DpuPath, None), execPath);
            && (checked.Failure? ==> outcome == Failure(checked.error) && unchanged(fs))
            && (outcome.Success? <==> checked.Success? && !delegateFault)
            && (checked.Success? && delegateFault ==> outcome == Failure(DelegateFailed))
    ensures var execPath := ExecutionPathOf(configuration, platform);
            var checked := Precheck(ws, old(fs.kinds), old(fs.writable),
                                    configuration.GetString(DpuProject, None),
                                    configuration.GetString(DpuPath, None), execPath);
            var confPath := ApplicationConfPath(execPath);
            checked.Success? ==>
              && (fault.OpenFault? || !CanOpen(old(fs.kinds), old(fs.writable), confPath) ==>
                    fs.kinds == old(fs.kinds) && fs.writable == old(fs.writable) && fs.written == old(fs.written))
              && (!fault.OpenFault? && CanOpen(old(fs.kinds), old(fs.writable), confPath) ==>
                    && fs.kinds == old(fs.kinds)[confPath := RegularFile]
                    && fs.writable == old(fs.writable) + {confPath}
                    && confPath in fs.written
                    && fs.written == old(fs.written)[confPath := fs.written[confPath]]
                    && (fault.WriteFault? ==> fs.written[confPath] == Damaged)
                    && (fault.NoFault? ==>
                          && fs.written[confPath].Complete?
                          && DescribesLaunch(fs.written[confPath].conf, checked.value.dpu.name,
                                             checked.value.file.locationUri, execPath,
                                             configuration.GetMap(DpuParameters, map[]))))
    ensures outcome.Success? ==>
              var confPath := ApplicationConfPath(ExecutionPathOf(configuration, platform));
              && fresh(outcome.value)
              && outcome.value.maps == configuration.maps
              && outcome.value.strings == configuration.strings[keys.vmArguments :=
                   VmArguments(configuration.GetString(keys.vmArguments, None), keys.applicationConfFile,
                               AbsolutePath(confPath, platform.workingDirectory))]
  {
    var projectName := configuration.GetString(DpuProject, None);
    var relativePath := configuration.GetString(DpuPath, None);
    var execPath := ExecutionPathOf(configuration, platform);
    var vmArguments := configuration.GetString(keys.vmArguments, None);

    var checked := Precheck(ws, fs.kinds, fs.writable, projectName, relativePath, execPath);
    if checked.Failure? {
      return Failure(checked.error);
    }
    var dpuFile, dpu := checked.value.file, checked.value.dpu;

    var stored := configuration.GetMap(DpuParameters, map[]);
    var parameters := StringToParameters(Some(stored));
    var confMap := BuildConfMap(dpu.name, dpuFile.locationUri, execPath, parameters);

    var applicationConf := ApplicationConfPath(execPath);
    var written := fs.Write(applicationConf, confMap, fault);

    var arguments := VmArguments(vmArguments, keys.applicationConfFile,
                                 AbsolutePath(applicationConf, platform.workingDirectory));
    var copy := configuration.GetWorkingCopy();
    copy.SetString(keys.vmArguments, arguments);
    if delegateFault {
      return Failure(DelegateFailed);
    }
    return Success(copy);
  }
}
