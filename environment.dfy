/**
 * Everything the plugin reads from outside itself, as one value: the file
 * system, the class path, the JSON parser and JSHINT, Plexus'
 * `DirectoryScanner`, and whether a Nashorn engine is installed.
 */
module Environment {
  import opened JavaLang
  import opened Runner

  /**
   * A regular file: its text and the lines a `BufferedReader` yields for it,
   * or `Unreadable` when opening or reading it throws an `IOException`.
   */
  datatype FileContent = Readable(text: string, lines: seq<string>) | Unreadable

  /** Where the JSHint script comes from: a class-path URL or a local file. */
  datatype ScriptHandle = Url(resource: string) | LocalFile(path: string)

  datatype Host = Host(
    files: map<string, FileContent>,                    // regular files, by path
    classpath: map<string, FileContent>,                // class-path resources, by absolute name
    parse: ConfigParser,                                // JSON.parse
    engine: Engine,                                     // JSHINT
    scan: (seq<string>, seq<string>) -> seq<string>,    // scanning the source directory: includes, excludes -> files
    jshintIgnores: seq<string>,                         // the `.jshintignore` files under the source directory
    nashornAvailable: bool)

  /** `new File(dir, name).getPath()`. */
  function Child(dir: string, name: string): string {
    dir + [Separator] + name
  }

  /** `isFile() && exists()`. */
  predicate IsFile(host: Host, path: string) {
    path in host.files
  }

  /** Whether compiling the script behind `handle` can read it. */
  predicate ScriptReadable(host: Host, handle: ScriptHandle) {
    match handle
    case Url(r) => r in host.classpath && host.classpath[r].Readable?
    case LocalFile(p) => p in host.files && host.files[p].Readable?
  }

  /** `readSourceLines(baseDirectory, path)`: the file's lines, or the wrapped load error. */
  function ReadSourceLines(host: Host, baseDirectory: string, path: string): (r: Result<seq<string>, Exception>)
    ensures r.Success? <==> Child(baseDirectory, path) in host.files && host.files[Child(baseDirectory, path)].Readable?
    ensures r.Success? ==> r.value == host.files[Child(baseDirectory, path)].lines
    ensures r.Failure? ==> r.error == WrappedMojo("Error loading " + baseDirectory + [Separator] + path)
  {
    var file := Child(baseDirectory, path);
    if file in host.files && host.files[file].Readable? then Success(host.files[file].lines)
    else Failure(WrappedMojo("Error loading " + baseDirectory + [Separator] + path))
  }
}
