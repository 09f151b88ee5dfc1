/**
 * `JSHintMojo`, the `jshint` goal: it composes the include and exclude
 * patterns (turning `.jshintignore` lines into excludes), picks the JSHint
 * backend and script, loads the default configuration, lints every file
 * while counting those with findings, decides whether the build fails, and
 * unwraps a `RuntimeException` that carries a `MojoExecutionException`.
 */
module JshintMojo {
  import opened JavaLang
  import opened Errors
  import opened Environment
  import opened AbstractJSHinter
  import opened RhinoJSHinter

  /** The goal's parameters, as Maven injects them; `None` is an unset (`null`) parameter. */
  datatype Parameters = Parameters(
    baseDirectory: string,
    sourceDirectory: string,
    jsHintDefaultConfigFile: string,
    includes: Option<seq<string>>,
    excludes: Option<seq<string>>,
    failOnError: bool,
    preferRhino: bool,
    ignoreJSHintIgnoreFiles: bool,
    ignoreJSHintConfigFiles: bool,
    jshintVersion: JString,
    jshintScript: JString)

  const DefaultIncludes: seq<string> := ["*.js", "**/*.js"]

  const IgnoreLoadFailure: Exception := WrappedMojo("Error loading .jshintignore")

  const NashornUnsupported: Exception := MojoExecutionException("Nashorn is not yet supported")

  /** The message of the build failure for `n` files with findings. */
  function ErrorsFoundMessage(n: nat): string {
    "JSHint errors found in " + DecimalString(n) + " source files"
  }

  /* ---------------------------------------------------------------- */
  /* Include and exclude patterns                                      */
  /* ---------------------------------------------------------------- */

  /** The include patterns: the configured ones, or both default patterns when none are configured. */
  function IncludePatterns(includes: Option<seq<string>>): (r: seq<string>)
    ensures |r| > 0
    ensures includes.Some? && |includes.value| > 0 ==> r == includes.value
    ensures includes.None? || |includes.value| == 0 ==> r == DefaultIncludes
  {
    if includes.Some? && |includes.value| > 0 then includes.value else DefaultIncludes
  }

  /** The configured exclude patterns, empty when unset. */
  function ConfiguredExcludes(excludes: Option<seq<string>>): seq<string> {
    if excludes.Some? && |excludes.value| > 0 then excludes.value else []
  }

  /**
   * The directory of a `.jshintignore` file relative to the source
   * directory: everything before its last separator, or `null` when it
   * sits at the top.
   */
  function IgnorePrefix(ignoreFile: string): (r: Option<string>)
    ensures r.Some? <==> Contains(ignoreFile, Separator)
    ensures r.Some? ==>
      |r.value| < |ignoreFile| && ignoreFile[..|r.value|] == r.value && ignoreFile[|r.value|] == Separator &&
      !Contains(ignoreFile[|r.value| + 1..], Separator)
  {
    if Contains(ignoreFile, Separator) then
      var i := LastIndexOf(ignoreFile, Separator);
      var rest := ignoreFile[i + 1..];
      assert forall j :: 0 <= j < |rest| ==> rest[j] == ignoreFile[i + 1 + j];
      Some(ignoreFile[..i])
    else None
  }

  /** The exclude pattern of one ignore-file line: the line itself, under the file's directory if it has one. */
  function Excluded(prefix: Option<string>, line: string): string {
    if prefix.Some? then prefix.value + [Separator] + line else line
  }

  /** The excludes one ignore file contributes, in line order. */
  function IgnoreEntries(prefix: Option<string>, lines: seq<string>): seq<string>
    decreases |lines|
  {
    if |lines| == 0 then []
    else
      var earlier := IgnoreEntries(prefix, lines[..|lines| - 1]);
      var line := lines[|lines| - 1];
      if IsBlank(Some(line)) then earlier else earlier + [Excluded(prefix, line)]
  }

  /**
   * Blankness is `Character.isWhitespace`: an ideographic space or an em
   * space is dropped like a tab, while a BEL control or a non-breaking
   * space is an exclude of its own.
   */
  lemma BlankMeansJavaWhitespace(prefix: Option<string>)
    ensures IgnoreEntries(prefix, ["\U{3000}", "\U{2003}", "\t ", "\U{0007}", "\U{00A0}"]) ==
            [Excluded(prefix, "\U{0007}"), Excluded(prefix, "\U{00A0}")]
  {
    var lines := ["\U{3000}", "\U{2003}", "\t ", "\U{0007}", "\U{00A0}"];
    assert IsBlank(Some(lines[0])) && IsBlank(Some(lines[1])) && IsBlank(Some(lines[2]));
    assert !IsJavaWhitespace(lines[3][0]) && !IsJavaWhitespace(lines[4][0]);
    assert lines[..1][..0] == [];
    assert IgnoreEntries(prefix, lines[..1]) == [];
    assert lines[..2][..1] == lines[..1];
    assert IgnoreEntries(prefix, lines[..2]) == [];
    assert lines[..3][..2] == lines[..2];
    assert IgnoreEntries(prefix, lines[..3]) == [];
    assert lines[..4][..3] == lines[..3];
    assert IgnoreEntries(prefix, lines[..4]) == [Excluded(prefix, lines[3])];
    assert lines[..4] == lines[..|lines| - 1];
  }

  /** A file that opens and reads without an `IOException`. */
  predicate ReadableFile(host: Host, path: string) {
    path in host.files && host.files[path].Readable?
  }

  /** The lines of a readable file. */
  function FileLines(host: Host, path: string): seq<string> {
    if ReadableFile(host, path) then host.files[path].lines else []
  }

  /** The excludes of the ignore file `name` of the source directory. */
  function EntriesOf(host: Host, sourceDirectory: string, name: string): seq<string> {
    IgnoreEntries(IgnorePrefix(name), FileLines(host, Child(sourceDirectory, name)))
  }

  /** `loadExcludesFromJSHintIgnores` over the given ignore files: their excludes in file order, or the load error. */
  function IgnoreExcludes(host: Host, sourceDirectory: string, ignoreFiles: seq<string>): Result<seq<string>, Exception>
    decreases |ignoreFiles|
  {
    if |ignoreFiles| == 0 then Success([])
    else match IgnoreExcludes(host, sourceDirectory, ignoreFiles[..|ignoreFiles| - 1])
      case Failure(e) => Failure(e)
      case Success(earlier) =>
        var name := ignoreFiles[|ignoreFiles| - 1];
        if ReadableFile(host, Child(sourceDirectory, name)) then Success(earlier + EntriesOf(host, sourceDirectory, name))
        else Failure(IgnoreLoadFailure)
  }

  /** Blank lines are dropped, every other line becomes exactly one exclude, untrimmed and under the file's directory. */
  lemma {:induction false} IgnoreEntriesAreNonBlankLines(prefix: Option<string>, lines: seq<string>, x: string)
    ensures x in IgnoreEntries(prefix, lines) <==>
      exists j :: 0 <= j < |lines| && !IsWhitespaceOnly(lines[j]) && x == Excluded(prefix, lines[j])
    ensures |IgnoreEntries(prefix, lines)| <= |lines|
    decreases |lines|
  {
    if |lines| > 0 {
      var init := lines[..|lines| - 1];
      IgnoreEntriesAreNonBlankLines(prefix, init, x);
      if x in IgnoreEntries(prefix, lines) && x !in IgnoreEntries(prefix, init) {
        assert !IsWhitespaceOnly(lines[|lines| - 1]) && x == Excluded(prefix, lines[|lines| - 1]);
      }
      forall j | 0 <= j < |lines| - 1
        ensures lines[j] == init[j]
      {
      }
    }
  }

  /** Reading the ignore files fails exactly when one of them cannot be read, and then always with the same error. */
  lemma {:induction false} IgnoreExcludesFailure(host: Host, sourceDirectory: string, ignoreFiles: seq<string>)
    ensures IgnoreExcludes(host, sourceDirectory, ignoreFiles).Failure? <==>
      exists k :: 0 <= k < |ignoreFiles| && !ReadableFile(host, Child(sourceDirectory, ignoreFiles[k]))
    ensures IgnoreExcludes(host, sourceDirectory, ignoreFiles).Failure? ==>
      IgnoreExcludes(host, sourceDirectory, ignoreFiles).error == IgnoreLoadFailure
    decreases |ignoreFiles|
  {
    if |ignoreFiles| > 0 {
      var init := ignoreFiles[..|ignoreFiles| - 1];
      IgnoreExcludesFailure(host, sourceDirectory, init);
      forall k | 0 <= k < |init|
        ensures ignoreFiles[k] == init[k]
      {
      }
    }
  }

  /** A successful read yields the excludes of every ignore file and nothing else. */
  lemma {:induction false} IgnoreExcludesMembership(host: Host, sourceDirectory: string, ignoreFiles: seq<string>, x: string)
    requires IgnoreExcludes(host, sourceDirectory, ignoreFiles).Success?
    ensures x in IgnoreExcludes(host, sourceDirectory, ignoreFiles).value <==>
      exists k :: 0 <= k < |ignoreFiles| && x in EntriesOf(host, sourceDirectory, ignoreFiles[k])
    decreases |ignoreFiles|
  {
    if |ignoreFiles| > 0 {
      var init := ignoreFiles[..|ignoreFiles| - 1];
      IgnoreExcludesMembership(host, sourceDirectory, init, x);
      forall k | 0 <= k < |init|
        ensures ignoreFiles[k] == init[k]
      {
      }
    }
  }

  /** The exclude patterns handed to the scanner: the configured ones, then those of the ignore files unless they are ignored. */
  function EffectiveExcludes(host: Host, p: Parameters): Result<seq<string>, Exception> {
    if p.ignoreJSHintIgnoreFiles then Success(ConfiguredExcludes(p.excludes))
    else match IgnoreExcludes(host, p.sourceDirectory, host.jshintIgnores)
      case Failure(e) => Failure(e)
      case Success(ignored) => Success(ConfiguredExcludes(p.excludes) + ignored)
  }

  /** `lookupJavaScriptFilesToInclude`: the files the scanner finds for the composed patterns. */
  function LookupFiles(host: Host, p: Parameters): Result<seq<string>, Exception> {
    match EffectiveExcludes(host, p)
    case Failure(e) => Failure(e)
    case Success(excludes) => Success(host.scan(IncludePatterns(p.includes), excludes))
  }

  /**
   * The configured excludes always come first and are kept as they are;
   * the ignore files add exactly their excludes after them, and are not
   * even read when they are to be ignored.
   */
  lemma ExcludesComposition(host: Host, p: Parameters, x: string)
    ensures p.ignoreJSHintIgnoreFiles ==> EffectiveExcludes(host, p) == Success(ConfiguredExcludes(p.excludes))
    ensures EffectiveExcludes(host, p).Failure? <==>
      !p.ignoreJSHintIgnoreFiles &&
      exists k :: 0 <= k < |host.jshintIgnores| && !ReadableFile(host, Child(p.sourceDirectory, host.jshintIgnores[k]))
    ensures EffectiveExcludes(host, p).Success? ==>
      var excludes := EffectiveExcludes(host, p).value;
      excludes[..|ConfiguredExcludes(p.excludes)|] == ConfiguredExcludes(p.excludes) &&
      (x in excludes <==>
        x in ConfiguredExcludes(p.excludes) ||
        (!p.ignoreJSHintIgnoreFiles &&
         exists k :: 0 <= k < |host.jshintIgnores| && x in EntriesOf(host, p.sourceDirectory, host.jshintIgnores[k])))
  {
    IgnoreExcludesFailure(host, p.sourceDirectory, host.jshintIgnores);
    if !p.ignoreJSHintIgnoreFiles && IgnoreExcludes(host, p.sourceDirectory, host.jshintIgnores).Success? {
      IgnoreExcludesMembership(host, p.sourceDirectory, host.jshintIgnores, x);
    }
  }

  /**
   * `loadExcludesFromJSHintIgnores`: for every ignore file, every
   * non-blank line, prefixed with the file's directory when it has one.
   */
  method LoadExcludesFromJSHintIgnores(host: Host, sourceDirectory: string) returns (r: Result<seq<string>, Exception>)
    ensures r == IgnoreExcludes(host, sourceDirectory, host.jshintIgnores)
  {
    var jshintIgnores := host.jshintIgnores;
    var excludes: seq<string> := [];
    var i := 0;
    while i < |jshintIgnores|
      invariant 0 <= i <= |jshintIgnores|
      invariant IgnoreExcludes(host, sourceDirectory, jshintIgnores[..i]) == Success(excludes)
    {
      var jshintIgnore := jshintIgnores[i];
      assert jshintIgnores[..i + 1][..i] == jshintIgnores[..i];
      var path := IgnorePrefix(jshintIgnore);
      var jshintIgnoreFile := Child(sourceDirectory, jshintIgnore);
      if !(jshintIgnoreFile in host.files && host.files[jshintIgnoreFile].Readable?) {
        IgnoreExcludesStops(host, sourceDirectory, jshintIgnores, i + 1);
        return Failure(IgnoreLoadFailure);
      }
      excludes := AddIgnoreLines(excludes, path, host.files[jshintIgnoreFile].lines);
      i := i + 1;
    }
    assert jshintIgnores[..i] == jshintIgnores;
    return Success(excludes);
  }

  /** The inner loop of `loadExcludesFromJSHintIgnores`: appends the excludes of one ignore file's lines. */
  method AddIgnoreLines(excludes: seq<string>, path: Option<string>, lines: seq<string>) returns (excludes': seq<string>)
    ensures excludes' == excludes + IgnoreEntries(path, lines)
  {
    excludes' := excludes;
    var j := 0;
    while j < |lines|
      invariant 0 <= j <= |lines|
      invariant excludes' == excludes + IgnoreEntries(path, lines[..j])
    {
      var line := lines[j];
      assert lines[..j + 1][..j] == lines[..j];
      if !IsBlank(Some(line)) {
        if path.Some? {
          excludes' := excludes' + [path.value + [Separator] + line];
        } else {
          excludes' := excludes' + [line];
        }
      }
      j := j + 1;
    }
    assert lines[..j] == lines;
  }

  /** Once an ignore file fails to load, the files after it change nothing. */
  lemma {:induction false} IgnoreExcludesStops(host: Host, sourceDirectory: string, ignoreFiles: seq<string>, k: nat)
    requires k <= |ignoreFiles| && IgnoreExcludes(host, sourceDirectory, ignoreFiles[..k]).Failure?
    ensures IgnoreExcludes(host, sourceDirectory, ignoreFiles) == IgnoreExcludes(host, sourceDirectory, ignoreFiles[..k])
    decreases |ignoreFiles| - k
  {
    if k < |ignoreFiles| {
      assert ignoreFiles[..k + 1][..k] == ignoreFiles[..k];
      IgnoreExcludesStops(host, sourceDirectory, ignoreFiles, k + 1);
    } else {
      assert ignoreFiles[..k] == ignoreFiles;
    }
  }

  /** `lookupJavaScriptFilesToInclude`: composes the patterns, then scans the source directory. */
  method LookupJavaScriptFilesToInclude(host: Host, p: Parameters) returns (r: Result<seq<string>, Exception>)
    ensures r == LookupFiles(host, p)
  {
    var includes := IncludePatterns(p.includes);
    var effectiveExcludes: seq<string> := [];
    if p.excludes.Some? && |p.excludes.value| > 0 {
      effectiveExcludes := effectiveExcludes + p.excludes.value;
    }
    assert effectiveExcludes == ConfiguredExcludes(p.excludes);
    if !p.ignoreJSHintIgnoreFiles {
      var jshintIgnoreExcludes := LoadExcludesFromJSHintIgnores(host, p.sourceDirectory);
      if jshintIgnoreExcludes.Failure? {
        return Failure(jshintIgnoreExcludes.error);
      }
      effectiveExcludes := effectiveExcludes + jshintIgnoreExcludes.value;
    }
    return Success(host.scan(includes, effectiveExcludes));
  }

  /* ---------------------------------------------------------------- */
  /* Default configuration and script                                  */
  /* ---------------------------------------------------------------- */

  /**
   * `loadDefaultJSHintConfig`: the file under the base directory if there
   * is one, else the class-path resource of that name, else `{}`.
   */
  function DefaultJSHintConfig(host: Host, p: Parameters): (r: Result<string, Exception>)
    ensures var file := Child(p.baseDirectory, p.jsHintDefaultConfigFile);
      IsFile(host, file) ==>
        (r.Success? <==> ReadableFile(host, file)) &&
        (r.Success? ==> r.value == host.files[file].text) &&
        (r.Failure? ==> r.error == WrappedMojo("Error reading default JSHint config file" + p.jsHintDefaultConfigFile))
    ensures var file, name := Child(p.baseDirectory, p.jsHintDefaultConfigFile), p.jsHintDefaultConfigFile;
      !IsFile(host, file) && name in host.classpath ==>
        (r.Success? <==> host.classpath[name].Readable?) &&
        (r.Success? ==> r.value == host.classpath[name].text) &&
        (r.Failure? ==> r.error == WrappedMojo("Error reading default JSHint config from " + name))
    ensures var file, name := Child(p.baseDirectory, p.jsHintDefaultConfigFile), p.jsHintDefaultConfigFile;
      !IsFile(host, file) && name !in host.classpath ==> r == Success("{}")
  {
    var name := p.jsHintDefaultConfigFile;
    var file := Child(p.baseDirectory, name);
    if !IsFile(host, file) then
      if name in host.classpath then
        if host.classpath[name].Readable? then Success(host.classpath[name].text)
        else Failure(WrappedMojo("Error reading default JSHint config from " + name))
      else Success("{}")
    else if host.files[file].Readable? then Success(host.files[file].text)
    else Failure(WrappedMojo("Error reading default JSHint config file" + name))
  }

  /** A default configuration file in the project shadows the class path entirely. */
  lemma ProjectFileShadowsClassPath(host: Host, p: Parameters, classpath: map<string, FileContent>)
    requires IsFile(host, Child(p.baseDirectory, p.jsHintDefaultConfigFile))
    ensures DefaultJSHintConfig(host.(classpath := classpath), p) == DefaultJSHintConfig(host, p)
  {
  }

  /**
   * The script the Rhino hinter is built with: a `jshintScript` that is a
   * file under the base directory, else `jshintScript` as a class-path
   * resource, else the bundled script of `jshintVersion`.
   */
  function ScriptChoice(host: Host, p: Parameters): (r: Result<ScriptHandle, Exception>)
    ensures p.jshintScript.Some? && IsFile(host, Child(p.baseDirectory, p.jshintScript.value)) ==>
      r == Success(LocalFile(Child(p.baseDirectory, p.jshintScript.value)))
    ensures r.Success? && r.value.LocalFile? ==>
      p.jshintScript.Some? && r.value.path == Child(p.baseDirectory, p.jshintScript.value) && IsFile(host, r.value.path)
    ensures r.Success? && r.value.Url? ==>
      r.value.resource in host.classpath &&
      (p.jshintScript.Some? ==> r.value.resource == p.jshintScript.value) &&
      (p.jshintScript.None? ==> p.jshintVersion.Some? && r.value.resource == PackagePath + ScriptName(p.jshintVersion.value))
    ensures p.jshintScript.None? && IsBlank(p.jshintVersion) ==>
      r == Failure(IllegalArgumentException("versionOrResourcePath not provided"))
  {
    if p.jshintScript.Some? then
      var scriptFile := Child(p.baseDirectory, p.jshintScript.value);
      if IsFile(host, scriptFile) then ResolveJSHintScriptFile(Some(Log), Some(scriptFile))
      else ResolveJSHintScript(host, Some(Log), p.jshintScript, true)
    else ResolveJSHintScript(host, Some(Log), p.jshintVersion, false)
  }

  /* ---------------------------------------------------------------- */
  /* Linting the files                                                 */
  /* ---------------------------------------------------------------- */

  /**
   * The loop of `execute` over the files with one Rhino hinter: the
   * number of files with findings so far, or what a call threw; and the
   * hinter's engine state.
   */
  function Tally(host: Host, handle: ScriptHandle, sourceDirectory: string, files: seq<string>, default: string,
                 ignoreJSHintConfigFiles: bool): (Result<nat, Exception>, EngineState)
    decreases |files|
  {
    if |files| == 0 then (Success(0), Uninitialised)
    else
      var (sofar, state) := Tally(host, handle, sourceDirectory, files[..|files| - 1], default, ignoreJSHintConfigFiles);
      if sofar.Failure? then (sofar, state)
      else
        var step := RhinoExecute(host, handle, state, Some(sourceDirectory), Some(files[|files| - 1]), Some(default),
                                 ignoreJSHintConfigFiles);
        match step.result
        case Failure(e) => (Failure(e), step.state)
        case Success(errors) => (Success(sofar.value + if |errors| > 0 then 1 else 0), step.state)
  }

  /** The result of linting one file on its own. */
  function Lint(host: Host, sourceDirectory: string, file: string, default: string, ignoreJSHintConfigFiles: bool)
    : Result<seq<Error>, Exception>
  {
    LintFile(host, Some(sourceDirectory), Some(file), Some(default), ignoreJSHintConfigFiles)
  }

  /** How many of the files, each linted on its own, have findings. */
  function FilesWithFindings(host: Host, sourceDirectory: string, files: seq<string>, default: string,
                             ignoreJSHintConfigFiles: bool): nat
    decreases |files|
  {
    if |files| == 0 then 0
    else
      var lint := Lint(host, sourceDirectory, files[|files| - 1], default, ignoreJSHintConfigFiles);
      FilesWithFindings(host, sourceDirectory, files[..|files| - 1], default, ignoreJSHintConfigFiles) +
      if lint.Success? && |lint.value| > 0 then 1 else 0
  }

  /** The exceptions the plugin raises itself, before `execute` unwraps them. */
  predicate Internal(e: Exception) {
    e.IllegalArgumentException? || e.NullPointerException? || e.ScriptError? || e.MojoExecutionException? ||
    (e.RuntimeException? && e.cause.MojoExecutionException?)
  }

  /** A failing `.jshintrc` lookup fails with a wrapped `MojoExecutionException`. */
  lemma {:induction false} NearestOverrideFailure(host: Host, chain: seq<string>)
    ensures NearestOverride(host, chain).Failure? ==> Internal(NearestOverride(host, chain).error)
    decreases |chain|
  {
    if chain != [] && ProbeDir(host, chain[0]).Absent? {
      NearestOverrideFailure(host, chain[1..]);
    }
  }

  /**
   * One call from a fresh or ready engine agrees with linting the file on
   * its own, except that a fresh engine first needs the script.
   */
  lemma StepAgreesWithLint(host: Host, handle: ScriptHandle, state: EngineState, sourceDirectory: string, file: string,
                           default: string, ignoreJSHintConfigFiles: bool)
    requires state == Uninitialised || state == Ready
    ensures var step := RhinoExecute(host, handle, state, Some(sourceDirectory), Some(file), Some(default),
                                     ignoreJSHintConfigFiles);
      var lint := Lint(host, sourceDirectory, file, default, ignoreJSHintConfigFiles);
      (step.result.Success? <==> lint.Success? && (state == Ready || ScriptReadable(host, handle))) &&
      (step.result.Success? ==> step.result == lint && step.state == Ready) &&
      (step.result.Failure? ==> Internal(step.result.error))
  {
    if ValidateArguments(Some(sourceDirectory), Some(file), Some(default)).None? && !ignoreJSHintConfigFiles {
      NearestOverrideFailure(host, DirChain(sourceDirectory, file));
    }
  }

  /**
   * The loop finishes exactly when every file lints on its own and, if
   * there is a file, the script can be read; it then counts the files with
   * findings. What it throws is one of the plugin's own exceptions.
   */
  lemma {:induction false} TallyCountsFilesWithFindings(host: Host, handle: ScriptHandle, sourceDirectory: string,
                                                        files: seq<string>, default: string, ignoreJSHintConfigFiles: bool)
    ensures var (r, state) := Tally(host, handle, sourceDirectory, files, default, ignoreJSHintConfigFiles);
      (r.Success? <==>
        (forall k :: 0 <= k < |files| ==> Lint(host, sourceDirectory, files[k], default, ignoreJSHintConfigFiles).Success?) &&
        (|files| > 0 ==> ScriptReadable(host, handle))) &&
      (r.Success? ==>
        r.value == FilesWithFindings(host, sourceDirectory, files, default, ignoreJSHintConfigFiles) &&
        r.value <= |files| &&
        state == (if |files| == 0 then Uninitialised else Ready)) &&
      (r.Failure? ==> Internal(r.error))
    decreases |files|
  {
    if |files| > 0 {
      var init, last := files[..|files| - 1], files[|files| - 1];
      TallyCountsFilesWithFindings(host, handle, sourceDirectory, init, default, ignoreJSHintConfigFiles);
      var (sofar, state) := Tally(host, handle, sourceDirectory, init, default, ignoreJSHintConfigFiles);
      forall k | 0 <= k < |init|
        ensures files[k] == init[k]
      {
      }
      if sofar.Success? {
        StepAgreesWithLint(host, handle, state, sourceDirectory, last, default, ignoreJSHintConfigFiles);
      }
    }
  }

  /** Once a call throws, the files after it are not linted. */
  lemma {:induction false} TallyStops(host: Host, handle: ScriptHandle, sourceDirectory: string, files: seq<string>,
                                      default: string, ignoreJSHintConfigFiles: bool, k: nat)
    requires k <= |files| && Tally(host, handle, sourceDirectory, files[..k], default, ignoreJSHintConfigFiles).0.Failure?
    ensures Tally(host, handle, sourceDirectory, files, default, ignoreJSHintConfigFiles).0 ==
            Tally(host, handle, sourceDirectory, files[..k], default, ignoreJSHintConfigFiles).0
    decreases |files| - k
  {
    if k < |files| {
      assert files[..k + 1][..k] == files[..k];
      TallyStops(host, handle, sourceDirectory, files, default, ignoreJSHintConfigFiles, k + 1);
    } else {
      assert files[..k] == files;
    }
  }

  /** The loop's next step: one more call from the state the earlier files left. */
  lemma TallyExtends(host: Host, handle: ScriptHandle, sourceDirectory: string, files: seq<string>, default: string,
                     ignoreJSHintConfigFiles: bool, i: nat, count: nat, state: EngineState)
    requires i < |files|
    requires Tally(host, handle, sourceDirectory, files[..i], default, ignoreJSHintConfigFiles) == (Success(count), state)
    ensures var step := RhinoExecute(host, handle, state, Some(sourceDirectory), Some(files[i]), Some(default),
                                     ignoreJSHintConfigFiles);
      Tally(host, handle, sourceDirectory, files[..i + 1], default, ignoreJSHintConfigFiles) ==
        match step.result
        case Failure(e) => (Failure(e), step.state)
        case Success(errors) => (Success(count + if |errors| > 0 then 1 else 0), step.state)
  {
    assert files[..i + 1][..i] == files[..i];
  }

  /**
   * The counting loop of `execute`: one call per file, in order, with
   * `filesChecked` counting the calls and `filesWithErrors` the calls
   * that returned a non-empty list; the first exception ends it.
   */
  method CheckFiles(hinter: RhinoJSHinter, host: Host, sourceDirectory: string, files: seq<string>,
                    defaultJSHintConfigContent: string, ignoreJSHintConfigFiles: bool)
    returns (filesChecked: nat, filesWithErrors: nat, thrown: Option<Exception>)
    requires hinter.Valid() && hinter.State() == Uninitialised
    requires CacheConsistent(hinter.effectiveJSHintConfig.entries, host)
    modifies hinter.Repr
    ensures var (r, _) := Tally(host, hinter.jshintScript, sourceDirectory, files, defaultJSHintConfigContent,
                                ignoreJSHintConfigFiles);
      (thrown.None? <==> r.Success?) &&
      (thrown.Some? ==> thrown.value == r.error) &&
      (r.Success? ==> filesWithErrors == r.value && filesChecked == |files|)
  {
    ghost var handle := hinter.jshintScript;
    filesChecked, filesWithErrors := 0, 0;
    var i := 0;
    while i < |files|
      invariant 0 <= i <= |files| && filesChecked == i
      invariant hinter.Valid() && fresh(hinter.Repr - old(hinter.Repr))
      invariant CacheConsistent(hinter.effectiveJSHintConfig.entries, host)
      invariant Tally(host, handle, sourceDirectory, files[..i], defaultJSHintConfigContent, ignoreJSHintConfigFiles) ==
                (Success(filesWithErrors), hinter.State())
    {
      ghost var step := RhinoExecute(host, handle, hinter.State(), Some(sourceDirectory), Some(files[i]),
                                     Some(defaultJSHintConfigContent), ignoreJSHintConfigFiles);
      TallyExtends(host, handle, sourceDirectory, files, defaultJSHintConfigContent, ignoreJSHintConfigFiles, i,
                   filesWithErrors, hinter.State());
      var errors := hinter.ExecuteJSHint(host, Some(sourceDirectory), Some(files[i]), Some(defaultJSHintConfigContent),
                                         ignoreJSHintConfigFiles);
      if errors.Failure? {
        TallyStops(host, handle, sourceDirectory, files, defaultJSHintConfigContent, ignoreJSHintConfigFiles, i + 1);
        return filesChecked, filesWithErrors, Some(errors.error);
      }
      if |errors.value.items| > 0 {
        filesWithErrors := filesWithErrors + 1;
      }
      filesChecked := filesChecked + 1;
      i := i + 1;
    }
    assert files[..i] == files;
    thrown := None;
  }

  /* ---------------------------------------------------------------- */
  /* execute                                                           */
  /* ---------------------------------------------------------------- */

  /** `catch (RuntimeException re)`: the cause when it is a `MojoExecutionException`, the exception itself otherwise. */
  function Unwrapped(e: Exception): (r: Exception)
    ensures e.RuntimeException? && e.cause.MojoExecutionException? ==> r == e.cause
    ensures !(e.RuntimeException? && e.cause.MojoExecutionException?) ==> r == e
    ensures !(r.RuntimeException? && r.cause.MojoExecutionException?)
  {
    if e.RuntimeException? && e.cause.MojoExecutionException? then e.cause else e
  }

  /** Everything `execute` does before the failure decision: the number of files with findings, or what was thrown. */
  function FilesWithErrors(host: Host, p: Parameters): Result<nat, Exception> {
    match LookupFiles(host, p)
    case Failure(e) => Failure(e)
    case Success(files) =>
      if !(p.preferRhino || !host.nashornAvailable) then Failure(NashornUnsupported)
      else match ScriptChoice(host, p)
        case Failure(e) => Failure(e)
        case Success(handle) =>
          match DefaultJSHintConfig(host, p)
          case Failure(e) => Failure(e)
          case Success(default) => Tally(host, handle, p.sourceDirectory, files, default, p.ignoreJSHintConfigFiles).0
  }

  /** What `execute` throws, if anything. */
  function ExecuteOutcome(host: Host, p: Parameters): Option<Exception> {
    match FilesWithErrors(host, p)
    case Failure(e) => Some(Unwrapped(e))
    case Success(n) => if n > 0 && p.failOnError then Some(MojoFailureException(ErrorsFoundMessage(n))) else None
  }

  /**
   * A run that gets to the files counts exactly the files that have
   * findings when linted on their own; Nashorn is refused before any file
   * is linted.
   */
  lemma FilesWithErrorsCounts(host: Host, p: Parameters)
    ensures FilesWithErrors(host, p).Success? ==>
      LookupFiles(host, p).Success? && ScriptChoice(host, p).Success? && DefaultJSHintConfig(host, p).Success? &&
      (p.preferRhino || !host.nashornAvailable) &&
      FilesWithErrors(host, p).value ==
        FilesWithFindings(host, p.sourceDirectory, LookupFiles(host, p).value, DefaultJSHintConfig(host, p).value,
                          p.ignoreJSHintConfigFiles) &&
      FilesWithErrors(host, p).value <= |LookupFiles(host, p).value|
    ensures LookupFiles(host, p).Success? && host.nashornAvailable && !p.preferRhino ==>
      ExecuteOutcome(host, p) == Some(NashornUnsupported)
    ensures FilesWithErrors(host, p).Failure? ==> Internal(FilesWithErrors(host, p).error)
  {
    if LookupFiles(host, p).Failure? && !p.ignoreJSHintIgnoreFiles {
      IgnoreExcludesFailure(host, p.sourceDirectory, host.jshintIgnores);
    }
    if LookupFiles(host, p).Success? && ScriptChoice(host, p).Success? && DefaultJSHintConfig(host, p).Success? {
      TallyCountsFilesWithFindings(host, ScriptChoice(host, p).value, p.sourceDirectory, LookupFiles(host, p).value,
                                   DefaultJSHintConfig(host, p).value, p.ignoreJSHintConfigFiles);
    }
  }

  /**
   * The build fails with a `MojoFailureException` exactly when the files
   * were all linted, some have findings and `failOnError` is set; its
   * message names the count. A wrapped `MojoExecutionException` never
   * escapes.
   */
  lemma BuildFailsOnFindings(host: Host, p: Parameters)
    ensures (ExecuteOutcome(host, p).Some? && ExecuteOutcome(host, p).value.MojoFailureException?) <==>
      FilesWithErrors(host, p).Success? && FilesWithErrors(host, p).value > 0 && p.failOnError
    ensures FilesWithErrors(host, p).Success? && FilesWithErrors(host, p).value > 0 && p.failOnError ==>
      ExecuteOutcome(host, p) == Some(MojoFailureException(ErrorsFoundMessage(FilesWithErrors(host, p).value)))
    ensures !p.failOnError ==> ExecuteOutcome(host, p).None? || !ExecuteOutcome(host, p).value.MojoFailureException?
    ensures ExecuteOutcome(host, p).Some? ==>
      !(ExecuteOutcome(host, p).value.RuntimeException? && ExecuteOutcome(host, p).value.cause.MojoExecutionException?)
  {
    FilesWithErrorsCounts(host, p);
  }

  /** The failure message gives the count back: different counts never share a message. */
  lemma ErrorsFoundMessageNamesCount(n: nat, m: nat)
    ensures ErrorsFoundMessage(n) == ErrorsFoundMessage(m) <==> n == m
  {
    if ErrorsFoundMessage(n) == ErrorsFoundMessage(m) {
      var prefix := "JSHint errors found in ";
      var a, b := DecimalString(n), DecimalString(m);
      assert ErrorsFoundMessage(n) == prefix + a + " source files";
      assert ErrorsFoundMessage(m) == prefix + b + " source files";
      assert |a| == |b|;
      assert a == ErrorsFoundMessage(n)[|prefix|..|prefix| + |a|];
      assert b == ErrorsFoundMessage(m)[|prefix|..|prefix| + |b|];
      DecimalStringRoundTrip(n);
      DecimalStringRoundTrip(m);
    }
  }

  /**
   * `execute`: looks up the files, builds the Rhino hinter (Nashorn is
   * refused), loads the default configuration, lints every file and
   * decides whether the build fails.
   */
  method Execute(host: Host, p: Parameters) returns (thrown: Option<Exception>)
    ensures thrown == ExecuteOutcome(host, p)
  {
    var scriptFilesToProcess := LookupJavaScriptFilesToInclude(host, p);
    if scriptFilesToProcess.Failure? {
      return Some(Unwrapped(scriptFilesToProcess.error));
    }
    if !(p.preferRhino || !host.nashornAvailable) {
      return Some(NashornUnsupported);
    }
    var script := ScriptChoice(host, p);
    if script.Failure? {
      return Some(Unwrapped(script.error));
    }
    var hinter := new RhinoJSHinter(script.value);
    var defaultJSHintConfigContent := DefaultJSHintConfig(host, p);
    if defaultJSHintConfigContent.Failure? {
      return Some(Unwrapped(defaultJSHintConfigContent.error));
    }
    var filesChecked, filesWithErrors, failure := CheckFiles(hinter, host, p.sourceDirectory, scriptFilesToProcess.value,
                                                             defaultJSHintConfigContent.value, p.ignoreJSHintConfigFiles);
    if failure.Some? {
      return Some(Unwrapped(failure.value));
    }
    if filesWithErrors > 0 && p.failOnError {
      return Some(MojoFailureException(ErrorsFoundMessage(filesWithErrors)));
    }
    return None;
  }
}
