/**
 * `RhinoJSHinter`: resolves the JSHint script when it is constructed,
 * initialises a Rhino scope lazily on the first call, and on every call
 * binds a fresh `errors` list, the source lines and the effective
 * configuration into that scope before running the runner script.
 */
module RhinoJSHinter {
  import opened JavaLang
  import opened Errors
  import opened Runner
  import opened Environment
  import opened AbstractJSHinter

  /** A Maven logger; only whether one was passed matters. */
  datatype Log = Log

  /** The class path directory of the plugin's package, where `Class.getResource` looks for relative names. */
  const PackagePath: string := "de/acosix/maven/jshint/"

  /** The bundled JSHint script of a version. */
  function ScriptName(version: string): string {
    "jshint-" + version + "-rhino.js"
  }

  /**
   * The checks and the script resolution of
   * `RhinoJSHinter(log, versionOrResourcePath, resourcePath)`: a version
   * names a script bundled next to the class, a resource path names any
   * class-path resource; either must exist, or construction fails.
   */
  function ResolveJSHintScript(host: Host, log: Option<Log>, versionOrResourcePath: JString, resourcePath: bool)
    : (r: Result<ScriptHandle, Exception>)
    ensures log.None? ==> r == Failure(IllegalArgumentException("log not provided"))
    ensures log.Some? && IsBlank(versionOrResourcePath) ==>
      r == Failure(IllegalArgumentException("versionOrResourcePath not provided"))
    ensures log.Some? && !IsBlank(versionOrResourcePath) && !resourcePath ==>
      var name := ScriptName(versionOrResourcePath.value);
      r == (if PackagePath + name in host.classpath then Success(Url(PackagePath + name))
            else Failure(WrappedMojo("Error resolving " + name)))
    ensures log.Some? && !IsBlank(versionOrResourcePath) && resourcePath ==>
      var name := versionOrResourcePath.value;
      r == (if name in host.classpath then Success(Url(name)) else Failure(WrappedMojo("Error resolving " + name)))
    ensures r.Success? ==> r.value.Url? && r.value.resource in host.classpath
  {
    if log.None? then Failure(IllegalArgumentException("log not provided"))
    else if IsBlank(versionOrResourcePath) then Failure(IllegalArgumentException("versionOrResourcePath not provided"))
    else if !resourcePath then
      var scriptName := ScriptName(versionOrResourcePath.value);
      if PackagePath + scriptName in host.classpath then Success(Url(PackagePath + scriptName))
      else Failure(WrappedMojo("Error resolving " + scriptName))
    else
      if versionOrResourcePath.value in host.classpath then Success(Url(versionOrResourcePath.value))
      else Failure(WrappedMojo("Error resolving " + versionOrResourcePath.value))
  }

  /** The checks of `RhinoJSHinter(log, jshintScriptFile)`: the file is taken as given, unread. */
  function ResolveJSHintScriptFile(log: Option<Log>, jshintScriptFile: Option<string>): (r: Result<ScriptHandle, Exception>)
    ensures r.Success? <==> log.Some? && jshintScriptFile.Some?
    ensures r.Success? ==> r.value == LocalFile(jshintScriptFile.value)
    ensures log.None? ==> r == Failure(IllegalArgumentException("log not provided"))
    ensures log.Some? && jshintScriptFile.None? ==> r == Failure(IllegalArgumentException("jshintScriptFile not provided"))
  {
    if log.None? then Failure(IllegalArgumentException("log not provided"))
    else if jshintScriptFile.None? then Failure(IllegalArgumentException("jshintScriptFile not provided"))
    else Success(LocalFile(jshintScriptFile.value))
  }

  /**
   * The hinter's engine: no scope yet; a scope with JSHINT and the
   * compiled runner; or a scope whose initialisation failed after it was
   * assigned, so the runner is missing.
   */
  datatype EngineState = Uninitialised | Ready | RunnerMissing

  /** One call's result and the engine state after it. */
  datatype Step = Step(result: Result<seq<Error>, Exception>, state: EngineState)

  const InitFailure: Exception := WrappedMojo("Error initialising Rhino context for JSHint")

  /** `ensureEngineInitialisation`: what it throws and the state it leaves. */
  function InitEngine(host: Host, handle: ScriptHandle, state: EngineState): (Option<Exception>, EngineState) {
    if state != Uninitialised then (None, state)
    else if ScriptReadable(host, handle) then (None, Ready)
    else (Some(InitFailure), RunnerMissing)
  }

  /**
   * One `executeJSHint` call from a given engine state: the argument
   * checks, the engine initialisation, the effective configuration, the
   * source lines, then the runner.
   */
  function RhinoExecute(host: Host, handle: ScriptHandle, state: EngineState, baseDirectory: Option<string>, path: JString,
                        defaultJSHintConfigContent: JString, ignoreJSConfigFileOnPaths: bool): Step
  {
    match ValidateArguments(baseDirectory, path, defaultJSHintConfigContent)
    case Some(e) => Step(Failure(e), state)
    case None =>
      var (initError, state') := InitEngine(host, handle, state);
      if initError.Some? then Step(Failure(initError.value), state')
      else match EffectiveConfig(host, baseDirectory.value, path.value, defaultJSHintConfigContent.value, ignoreJSConfigFileOnPaths)
        case Failure(e) => Step(Failure(e), state')
        case Success(config) =>
          match ReadSourceLines(host, baseDirectory.value, path.value)
          case Failure(e) => Step(Failure(e), state')
          case Success(lines) =>
            if state' == RunnerMissing then Step(Failure(NullPointerException), state')
            else Step(RunnerAppends(host.parse, host.engine, lines, config), state')
  }

  /** Once initialised, a call is exactly the lint of the file, and the engine stays ready. */
  lemma ReadyCallIsLintFile(host: Host, handle: ScriptHandle, baseDirectory: Option<string>, path: JString,
                            defaultJSHintConfigContent: JString, ignoreJSConfigFileOnPaths: bool)
    ensures RhinoExecute(host, handle, Ready, baseDirectory, path, defaultJSHintConfigContent, ignoreJSConfigFileOnPaths) ==
            Step(LintFile(host, baseDirectory, path, defaultJSHintConfigContent, ignoreJSConfigFileOnPaths), Ready)
  {
  }

  /**
   * Initialisation happens at most once: only a call rejected by the
   * argument checks leaves the engine uninitialised, and a ready engine
   * stays ready.
   */
  lemma InitialisedAtMostOnce(host: Host, handle: ScriptHandle, state: EngineState, baseDirectory: Option<string>,
                              path: JString, defaultJSHintConfigContent: JString, ignoreJSConfigFileOnPaths: bool)
    ensures var step := RhinoExecute(host, handle, state, baseDirectory, path, defaultJSHintConfigContent, ignoreJSConfigFileOnPaths);
      (step.state == Uninitialised <==>
        state == Uninitialised && ValidateArguments(baseDirectory, path, defaultJSHintConfigContent).Some?) &&
      (state != Uninitialised ==> step.state == state) &&
      (step.result.Success? ==> step.state == Ready)
  {
  }

  /**
   * A failed initialisation leaves the hinter unusable: the scope was
   * already assigned, so no later call initialises again, and every later
   * call that gets as far as the runner dereferences the missing runner.
   */
  lemma FailedInitialisationIsNotRetried(host: Host, handle: ScriptHandle, baseDirectory: Option<string>, path: JString,
                                         defaultJSHintConfigContent: JString, ignoreJSConfigFileOnPaths: bool)
    requires !ScriptReadable(host, handle)
    requires ValidateArguments(baseDirectory, path, defaultJSHintConfigContent).None?
    ensures var first := RhinoExecute(host, handle, Uninitialised, baseDirectory, path, defaultJSHintConfigContent, ignoreJSConfigFileOnPaths);
      first == Step(Failure(InitFailure), RunnerMissing)
    ensures var again := RhinoExecute(host, handle, RunnerMissing, baseDirectory, path, defaultJSHintConfigContent, ignoreJSConfigFileOnPaths);
      again.state == RunnerMissing &&
      (LintFile(host, baseDirectory, path, defaultJSHintConfigContent, ignoreJSConfigFileOnPaths).Success? ==>
        again.result == Failure(NullPointerException))
  {
  }

  /** Checking the same file twice gives the same Errors in the same order. */
  lemma RepeatedCallIsDeterministic(host: Host, handle: ScriptHandle, state: EngineState, baseDirectory: Option<string>,
                                    path: JString, defaultJSHintConfigContent: JString, ignoreJSConfigFileOnPaths: bool)
    ensures var first := RhinoExecute(host, handle, state, baseDirectory, path, defaultJSHintConfigContent, ignoreJSConfigFileOnPaths);
      var second := RhinoExecute(host, handle, first.state, baseDirectory, path, defaultJSHintConfigContent, ignoreJSConfigFileOnPaths);
      first.result.Success? ==> second == first
  {
  }

  class RhinoJSHinter {
    const jshintScript: ScriptHandle
    const effectiveJSHintConfig: ConfigCache
    var scope: RhinoScope?
    var runnerCompiled: bool   // `runnerScript != null`
    ghost var Repr: set<object>

    ghost predicate Valid()
      reads this, Repr
    {
      this in Repr && effectiveJSHintConfig in Repr &&
      (scope != null ==> scope in Repr) &&
      (runnerCompiled ==> scope != null && scope.jshintLoaded)
    }

    function State(): EngineState
      reads this
    {
      if scope == null then Uninitialised else if runnerCompiled then Ready else RunnerMissing
    }

    /** Both Java constructors, once their checks and the script resolution have succeeded. */
    constructor (jshintScript: ScriptHandle)
      ensures Valid() && fresh(Repr)
      ensures this.jshintScript == jshintScript && State() == Uninitialised
      ensures effectiveJSHintConfig.entries == map[]
    {
      this.jshintScript := jshintScript;
      var cache := new ConfigCache();
      effectiveJSHintConfig := cache;
      scope := null;
      runnerCompiled := false;
      Repr := {this, cache};
    }

    /**
     * `ensureEngineInitialisation`: only while there is no scope, create
     * one, run the JSHint script in it, compile the runner. The scope is
     * assigned before the script is read, so a failure still leaves it set.
     */
    method EnsureEngineInitialisation(host: Host) returns (thrown: Option<Exception>)
      requires Valid()
      modifies this
      ensures Valid() && fresh(Repr - old(Repr))
      ensures (thrown, State()) == InitEngine(host, jshintScript, old(State()))
      ensures old(scope) != null ==> scope == old(scope)
      ensures effectiveJSHintConfig.entries == old(effectiveJSHintConfig.entries)
    {
      thrown := None;
      if scope == null {
        var s := new RhinoScope();
        scope := s;
        Repr := Repr + {s};
        if !ScriptReadable(host, jshintScript) {
          thrown := Some(InitFailure);
          return;
        }
        s.LoadJSHint();
        runnerCompiled := true;
      }
    }

    /**
     * `executeJSHint`. The result and the engine state afterwards are those
     * of `RhinoExecute` whatever the cache held; on success the returned
     * list is new and is the one bound as `errors`, next to this call's
     * source lines and configuration.
     */
    method ExecuteJSHint(host: Host, baseDirectory: Option<string>, path: JString, defaultJSHintConfigContent: JString,
                         ignoreJSConfigFileOnPaths: bool) returns (r: Result<ErrorList, Exception>)
      requires Valid() && CacheConsistent(effectiveJSHintConfig.entries, host)
      modifies Repr
      ensures Valid() && fresh(Repr - old(Repr)) && CacheConsistent(effectiveJSHintConfig.entries, host)
      ensures var step := RhinoExecute(host, jshintScript, old(State()), baseDirectory, path,
                                       defaultJSHintConfigContent, ignoreJSConfigFileOnPaths);
        State() == step.state &&
        (r.Success? <==> step.result.Success?) &&
        (r.Failure? ==> r.error == step.result.error) &&
        (r.Success? ==> fresh(r.value) && r.value.items == step.result.value)
      ensures r.Success? ==>
        scope != null && scope.errors == r.value &&
        scope.sourceLines == host.files[Child(baseDirectory.value, path.value)].lines &&
        scope.jshintConfig == EffectiveConfig(host, baseDirectory.value, path.value, defaultJSHintConfigContent.value,
                                              ignoreJSConfigFileOnPaths).value
    {
      ghost var state := State();
      var invalid := ValidateArguments(baseDirectory, path, defaultJSHintConfigContent);
      if invalid.Some? {
        return Failure(invalid.value);
      }
      var base, file, default := baseDirectory.value, path.value, defaultJSHintConfigContent.value;

      var initError := EnsureEngineInitialisation(host);
      if initError.Some? {
        return Failure(initError.value);
      }
      ghost var state' := State();
      assert InitEngine(host, jshintScript, state) == (None, state');

      var config := ChooseEffectiveConfig(effectiveJSHintConfig, host, base, file, default, ignoreJSConfigFileOnPaths);
      if config.Failure? {
        assert RhinoExecute(host, jshintScript, state, baseDirectory, path, defaultJSHintConfigContent,
                            ignoreJSConfigFileOnPaths) == Step(Failure(config.error), state');
        return Failure(config.error);
      }
      var effectiveJSHintConfigContent := config.value;

      var errors := new ErrorList();
      var sourceLines := ReadSourceLines(host, base, file);
      if sourceLines.Failure? {
        assert RhinoExecute(host, jshintScript, state, baseDirectory, path, defaultJSHintConfigContent,
                            ignoreJSConfigFileOnPaths) == Step(Failure(sourceLines.error), state');
        return Failure(sourceLines.error);
      }
      var s := scope;
      s.errors := errors;
      s.sourceLines := sourceLines.value;
      s.jshintConfig := effectiveJSHintConfigContent;
      if !runnerCompiled {
        assert RhinoExecute(host, jshintScript, state, baseDirectory, path, defaultJSHintConfigContent,
                            ignoreJSConfigFileOnPaths) == Step(Failure(NullPointerException), RunnerMissing);
        return Failure(NullPointerException);
      }
      assert RhinoExecute(host, jshintScript, state, baseDirectory, path, defaultJSHintConfigContent,
                          ignoreJSConfigFileOnPaths) ==
             Step(RunnerAppends(host.parse, host.engine, sourceLines.value, effectiveJSHintConfigContent), Ready);
      var thrown := s.ExecRunner(host.parse, host.engine);
      if thrown.Some? {
        return Failure(thrown.value);
      }
      return Success(errors);
    }
  }
}
