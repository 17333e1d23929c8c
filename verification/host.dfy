/**
 * The collaborators the launch pipeline talks to, reduced to the state it observes: the
 * DPU descriptor model, the Eclipse workspace, the local file system and the launch
 * configuration store.
 */
module Host {
  import opened Wrappers
  import opened Codec

  /** A loaded DPU descriptor (IDataProcessingUnit): its name and ordered parameter list. */
  datatype Dpu = Dpu(name: string, parameters: seq<Parameter>)

  /** A project name and a path relative to that project. */
  datatype MemberPath = MemberPath(project: string, relativePath: string)

  /**
   * A workspace member (IResource): a file, with its location URI and what parsing it as a DPU
   * descriptor yields (None when the descriptor store fails to read it), or a container (a
   * folder, or a project itself, which is the member at the empty relative path).
   */
  datatype Member =
    | File(locationUri: string, descriptor: Option<Dpu>)
    | Container

  /** The workspace: the members that exist, by project and project-relative path. */
  type Workspace = map<MemberPath, Member>

  /** What a local path names. */
  datatype Kind = RegularFile | Directory

  /** Files.exists */
  predicate Exists(kinds: map<string, Kind>, path: string) {
    path in kinds
  }

  /** Files.isDirectory: false for a path that does not exist. */
  predicate IsDirectory(kinds: map<string, Kind>, path: string)
    ensures IsDirectory(kinds, path) ==> Exists(kinds, path)
  {
    path in kinds && kinds[path] == Directory
  }

  /** Files.isWritable: false for a path that does not exist. */
  predicate IsWritable(kinds: map<string, Kind>, writable: set<string>, path: string)
    ensures IsWritable(kinds, writable, path) ==> Exists(kinds, path) && path in writable
  {
    path in kinds && path in writable
  }

  /** What a write leaves in a file: the whole configuration, or an empty, truncated or partial text. */
  /**
   * Whether a file may be opened for writing: not a directory, and, when it exists already,
   * writable. A new file is created (its directory's permission is checked by the caller).
   */
  predicate CanOpen(kinds: map<string, Kind>, writable: set<string>, path: string)
    ensures CanOpen(kinds, writable, path) ==> !IsDirectory(kinds, path)
    ensures !Exists(kinds, path) ==> CanOpen(kinds, writable, path)
    ensures Exists(kinds, path) ==> (CanOpen(kinds, writable, path) <==> kinds[path].RegularFile? && IsWritable(kinds, writable, path))
  {
    !IsDirectory(kinds, path) && (path in kinds ==> path in writable)
  }

  datatype Content = Complete(conf: map<string, string>) | Damaged

  /**
   * Where a write fails: not at all, when opening the file (nothing is touched), or after the
   * file was opened, created and truncated (while writing, flushing or closing).
   */
  datatype IoFault = NoFault | OpenFault | WriteFault

  /**
   * The local file system: what each path names, which paths the process may write, and the
   * configuration written to each file by a launch.
   */
  class FileSystem {
    var kinds: map<string, Kind>
    var writable: set<string>
    var written: map<string, Content>

    constructor (kinds: map<string, Kind>, writable: set<string>)
      ensures this.kinds == kinds && this.writable == writable && written == map[]
    {
      this.kinds := kinds;
      this.writable := writable;
      written := map[];
    }

    /**
     * Files.newBufferedWriter and a write of `content`: opening a directory or an existing
     * read-only file fails, as does an open fault, and none of these changes anything. Once
     * opened, the file exists, is writable and is truncated, so a later fault leaves it
     * damaged; without a fault it holds exactly `content`.
     */
    method Write(path: string, content: map<string, string>, fault: IoFault) returns (ok: bool)
      modifies this
      ensures ok == (fault.NoFault? && CanOpen(old(kinds), old(writable), path))
      ensures var isOpen := !fault.OpenFault? && CanOpen(old(kinds), old(writable), path);
              && (isOpen ==> kinds == old(kinds)[path := RegularFile] && writable == old(writable) + {path})
              && (isOpen ==> written == old(written)[path := if ok then Complete(content) else Damaged])
              && (!isOpen ==> kinds == old(kinds) && writable == old(writable) && written == old(written))
    {
      if fault.OpenFault? || !CanOpen(kinds, writable, path) {
        return false;
      }
      kinds := kinds[path := RegularFile];
      writable := writable + {path};
      ok := fault.NoFault?;
      written := written[path := if ok then Complete(content) else Damaged];
    }
  }

  /**
   * A launch configuration (ILaunchConfiguration and its working copy): string attributes and
   * string-map attributes by name.
   */
  class LaunchConfiguration {
    var strings: map<string, string>
    var maps: map<string, map<string, string>>

    constructor (strings: map<string, string>, maps: map<string, map<string, string>>)
      ensures this.strings == strings && this.maps == maps
    {
      this.strings := strings;
      this.maps := maps;
    }

    /** getAttribute(key, String default) */
    function GetString(key: string, default: Option<string>): (r: Option<string>)
      reads this
      ensures key in strings ==> r == Some(strings[key])
      ensures key !in strings ==> r == default
    {
      if key in strings then Some(strings[key]) else default
    }

    /** getAttribute(key, Map default) */
    function GetMap(key: string, default: map<string, string>): (r: map<string, string>)
      reads this
      ensures key in maps ==> r == maps[key]
      ensures key !in maps ==> r == default
    {
      if key in maps then maps[key] else default
    }

    /** setAttribute(key, String value) */
    method SetString(key: string, value: string)
      modifies this
      ensures strings == old(strings)[key := value] && maps == old(maps)
    {
      strings := strings[key := value];
    }

    /** setAttribute(key, Map value) */
    method SetMap(key: string, value: map<string, string>)
      modifies this
      ensures maps == old(maps)[key := value] && strings == old(strings)
    {
      maps := maps[key := value];
    }

    /** getWorkingCopy: a new configuration with the same attributes. */
    method GetWorkingCopy() returns (copy: LaunchConfiguration)
      ensures fresh(copy)
      ensures copy.strings == strings && copy.maps == maps
    {
      copy := new LaunchConfiguration(strings, maps);
    }
  }
}
