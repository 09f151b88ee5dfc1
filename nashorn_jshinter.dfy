/**
 * `NashornJSHinter`: the `AbstractJSHinter` template (argument checks and
 * effective configuration) around an implementation that loads the JSHint
 * script into a Nashorn `Bindings` once and then, per call, puts the
 * source lines, a new `errors` list and the configuration into those
 * bindings and evaluates the runner script.
 */
module NashornJSHinter {
  import opened JavaLang
  import opened Errors
  import opened Runner
  import opened Environment
  import opened AbstractJSHinter

  /** A value put into the engine's `Bindings`. */
  datatype Binding =
    | BoundLines(lines: seq<string>)
    | BoundErrors(list: ErrorList)
    | BoundText(text: string)
    | BoundScript(script: ScriptHandle)

  /** `NashornJSHinter.class.getResource("jshint-nashorn-runner.js")`. */
  const RunnerScript: ScriptHandle := Url("de/acosix/maven/jshint/jshint-nashorn-runner.js")

  const LoadFailure: Exception := WrappedMojo("Error loading jshint script")
  const RunFailure: Exception := WrappedMojo("Error running jshint validations")

  /** Whether `load(jshintScript)` succeeds, given whether it already has. */
  function LoadedAfter(host: Host, handle: ScriptHandle, loaded: bool): bool {
    loaded || ScriptReadable(host, handle)
  }

  /**
   * `executeJSHintImpl` from a given load flag: the result and the flag
   * afterwards. The load comes first; any failure of the runner script
   * surfaces as a `ScriptException` and is wrapped.
   */
  function NashornLint(host: Host, handle: ScriptHandle, loaded: bool, baseDirectory: string, path: string,
                       effectiveJSHintConfigContent: string): (Result<seq<Error>, Exception>, bool)
  {
    if !LoadedAfter(host, handle, loaded) then (Failure(LoadFailure), false)
    else match ReadSourceLines(host, baseDirectory, path)
      case Failure(e) => (Failure(e), true)
      case Success(lines) =>
        match RunnerAppends(host.parse, host.engine, lines, effectiveJSHintConfigContent)
        case Failure(_) => (Failure(RunFailure), true)
        case Success(found) => (Success(found), true)
  }

  /** `AbstractJSHinter.executeJSHint` with this implementation: checks, configuration, then the lint. */
  function NashornExecute(host: Host, handle: ScriptHandle, loaded: bool, baseDirectory: Option<string>, path: JString,
                          defaultJSHintConfigContent: JString, ignoreJSConfigFileOnPaths: bool)
    : (Result<seq<Error>, Exception>, bool)
  {
    match ValidateArguments(baseDirectory, path, defaultJSHintConfigContent)
    case Some(e) => (Failure(e), loaded)
    case None =>
      match EffectiveConfig(host, baseDirectory.value, path.value, defaultJSHintConfigContent.value, ignoreJSConfigFileOnPaths)
      case Failure(e) => (Failure(e), loaded)
      case Success(config) => NashornLint(host, handle, loaded, baseDirectory.value, path.value, config)
  }

  /**
   * The flag only ever goes from false to true, and it is true after any
   * call that returned Errors.
   */
  lemma LoadFlagIsMonotone(host: Host, handle: ScriptHandle, loaded: bool, baseDirectory: Option<string>, path: JString,
                           defaultJSHintConfigContent: JString, ignoreJSConfigFileOnPaths: bool)
    ensures var (result, loaded') := NashornExecute(host, handle, loaded, baseDirectory, path,
                                                    defaultJSHintConfigContent, ignoreJSConfigFileOnPaths);
      (loaded ==> loaded') && (result.Success? ==> loaded') &&
      (loaded' && !loaded ==> ScriptReadable(host, handle))
  {
  }

  /**
   * Unlike the Rhino hinter, a failed load is retried: the flag stays
   * false, so once the script can be read a later call loads it and lints
   * as usual.
   */
  lemma FailedLoadIsRetried(host: Host, handle: ScriptHandle, baseDirectory: string, path: string,
                             effectiveJSHintConfigContent: string, later: Host)
    requires !ScriptReadable(host, handle) && ScriptReadable(later, handle)
    ensures NashornLint(host, handle, false, baseDirectory, path, effectiveJSHintConfigContent) == (Failure(LoadFailure), false)
    ensures var (result, loaded) := NashornLint(later, handle, false, baseDirectory, path, effectiveJSHintConfigContent);
      loaded && (result.Success? <==>
        ReadSourceLines(later, baseDirectory, path).Success? &&
        RunnerAppends(later.parse, later.engine, ReadSourceLines(later, baseDirectory, path).value,
                      effectiveJSHintConfigContent).Success?)
  {
  }

  /**
   * Once both engines hold JSHINT, the two hinters return the same Errors
   * for the same file; they differ only in which exception a failing
   * runner raises.
   */
  lemma BackendsAgree(host: Host, handle: ScriptHandle, baseDirectory: Option<string>, path: JString,
                      defaultJSHintConfigContent: JString, ignoreJSConfigFileOnPaths: bool)
    ensures var (result, loaded) := NashornExecute(host, handle, true, baseDirectory, path,
                                                   defaultJSHintConfigContent, ignoreJSConfigFileOnPaths);
      var rhino := LintFile(host, baseDirectory, path, defaultJSHintConfigContent, ignoreJSConfigFileOnPaths);
      loaded && (result.Success? <==> rhino.Success?) && (result.Success? ==> result.value == rhino.value) &&
      (result.Failure? && result.error != RunFailure ==> result == rhino)
  {
  }

  /** `load(runnerScript)` with the bound values: the runner fills the bound list, or the evaluation throws. */
  method EvalRunner(list: ErrorList, parse: ConfigParser, engine: Engine, sourceLines: seq<string>, jshintConfig: string)
    returns (thrown: Option<Exception>)
    modifies list
    ensures match RunnerAppends(parse, engine, sourceLines, jshintConfig)
            case Success(found) => thrown.None? && list.items == old(list.items) + found
            case Failure(_) => thrown == Some(RunFailure) && list.items == old(list.items)
  {
    match RunnerAppends(parse, engine, sourceLines, jshintConfig)
    case Failure(_) =>
      thrown := Some(RunFailure);
    case Success(found) =>
      var i := 0;
      while i < |found|
        modifies list
        invariant 0 <= i <= |found|
        invariant list.items == old(list.items) + found[..i]
      {
        list.Add(found[i]);
        assert found[..i + 1] == found[..i] + [found[i]];
        i := i + 1;
      }
      assert found[..|found|] == found;
      thrown := None;
  }

  class NashornJSHinter {
    const jshintScript: ScriptHandle
    const effectiveJSHintConfig: ConfigCache
    var bindings: map<string, Binding>
    var jshintScriptLoaded: bool

    /** A hinter whose script resolution has succeeded: nothing loaded, nothing bound, nothing cached. */
    constructor (jshintScript: ScriptHandle)
      ensures this.jshintScript == jshintScript && !jshintScriptLoaded && bindings == map[]
      ensures effectiveJSHintConfig.entries == map[] && fresh(effectiveJSHintConfig)
    {
      this.jshintScript := jshintScript;
      effectiveJSHintConfig := new ConfigCache();
      bindings := map[];
      jshintScriptLoaded := false;
    }

    /**
     * `ensureEngineInitialisation`: while the flag is false, bind the
     * script and load it; the flag is set only once the load succeeded.
     */
    method EnsureEngineInitialisation(host: Host) returns (thrown: Option<Exception>)
      modifies this
      ensures jshintScriptLoaded == LoadedAfter(host, jshintScript, old(jshintScriptLoaded))
      ensures thrown == (if jshintScriptLoaded then None else Some(LoadFailure))
      ensures bindings == if old(jshintScriptLoaded) then old(bindings)
                          else old(bindings)["jshintScript" := BoundScript(jshintScript)]
    {
      thrown := None;
      if !jshintScriptLoaded {
        bindings := bindings["jshintScript" := BoundScript(jshintScript)];
        if !ScriptReadable(host, jshintScript) {
          return Some(LoadFailure);
        }
        jshintScriptLoaded := true;
      }
    }

    /**
     * `executeJSHintImpl`: result and load flag as `NashornLint`. Once the
     * script is loaded and the file read, a new list is bound as `errors`
     * next to this call's lines, configuration and runner script, whether
     * or not the runner then fails; on success that list is returned.
     */
    method ExecuteJSHintImpl(host: Host, baseDirectory: string, path: string, effectiveJSHintConfigContent: string)
      returns (r: Result<ErrorList, Exception>)
      modifies this
      ensures var (result, loaded) := NashornLint(host, jshintScript, old(jshintScriptLoaded), baseDirectory, path,
                                                  effectiveJSHintConfigContent);
        jshintScriptLoaded == loaded &&
        (r.Success? <==> result.Success?) &&
        (r.Failure? ==> r.error == result.error) &&
        (r.Success? ==> fresh(r.value) && r.value.items == result.value)
      ensures var loadBindings := if old(jshintScriptLoaded) then old(bindings)
                                  else old(bindings)["jshintScript" := BoundScript(jshintScript)];
        var lines := ReadSourceLines(host, baseDirectory, path);
        if !jshintScriptLoaded || lines.Failure? then bindings == loadBindings
        else
          "errors" in bindings && bindings["errors"].BoundErrors? && fresh(bindings["errors"].list) &&
          bindings == loadBindings["sourceLines" := BoundLines(lines.value)]
                                  ["errors" := bindings["errors"]]
                                  ["jshintConfig" := BoundText(effectiveJSHintConfigContent)]
                                  ["runnerScript" := BoundScript(RunnerScript)] &&
          (r.Success? ==> bindings["errors"] == BoundErrors(r.value))
    {
      var loadError := EnsureEngineInitialisation(host);
      if loadError.Some? {
        return Failure(loadError.value);
      }
      var errors := new ErrorList();
      var sourceLines := ReadSourceLines(host, baseDirectory, path);
      if sourceLines.Failure? {
        return Failure(sourceLines.error);
      }
      bindings := bindings["sourceLines" := BoundLines(sourceLines.value)];
      bindings := bindings["errors" := BoundErrors(errors)];
      bindings := bindings["jshintConfig" := BoundText(effectiveJSHintConfigContent)];
      bindings := bindings["runnerScript" := BoundScript(RunnerScript)];
      var thrown := EvalRunner(errors, host.parse, host.engine, sourceLines.value, effectiveJSHintConfigContent);
      if thrown.Some? {
        return Failure(thrown.value);
      }
      return Success(errors);
    }

    /** `AbstractJSHinter.executeJSHint`: result and load flag as `NashornExecute`, whatever the cache held. */
    method ExecuteJSHint(host: Host, baseDirectory: Option<string>, path: JString, defaultJSHintConfigContent: JString,
                         ignoreJSConfigFileOnPaths: bool) returns (r: Result<ErrorList, Exception>)
      requires CacheConsistent(effectiveJSHintConfig.entries, host)
      modifies this, effectiveJSHintConfig
      ensures CacheConsistent(effectiveJSHintConfig.entries, host)
      ensures var (result, loaded) := NashornExecute(host, jshintScript, old(jshintScriptLoaded), baseDirectory, path,
                                                     defaultJSHintConfigContent, ignoreJSConfigFileOnPaths);
        jshintScriptLoaded == loaded &&
        (r.Success? <==> result.Success?) &&
        (r.Failure? ==> r.error == result.error) &&
        (r.Success? ==> fresh(r.value) && r.value.items == result.value)
    {
      var invalid := ValidateArguments(baseDirectory, path, defaultJSHintConfigContent);
      if invalid.Some? {
        return Failure(invalid.value);
      }
      var base, file := baseDirectory.value, path.value;
      var config := ChooseEffectiveConfig(effectiveJSHintConfig, host, base, file, defaultJSHintConfigContent.value,
                                          ignoreJSConfigFileOnPaths);
      if config.Failure? {
        return Failure(config.error);
      }
      r := ExecuteJSHintImpl(host, base, file, config.value);
    }
  }
}
