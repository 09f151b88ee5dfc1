/**
 * `jshint-rhino-runner.js`: the script that bridges a hinter's bindings
 * (`sourceLines`, `jshintConfig`, `errors`) to the JSHINT engine, and the
 * Rhino scope it runs in. JSON parsing and JSHINT itself are foreign code:
 * they are the parameters `parse` and `engine`.
 */
module Runner {
  import opened JavaLang
  import opened Errors

  /** The fields the runner reads from one entry of `JSHINT.data().errors`. */
  datatype RawFinding = RawFinding(
    id: JString,
    code: JString,
    raw: JString,
    evidence: JString,
    reason: JString,
    line: Int32,
    character: Int32)

  /** JSHint's `globals` option: variable name to "may be assigned". */
  type Globals = map<string, bool>

  /**
   * A parsed configuration that is not `null`: an object (option name to the
   * JSON text of its value, and `globals` when truthy), or any other JSON
   * value (a number, string, boolean or array), on which `config.globals`
   * is `undefined`.
   */
  datatype ParsedConfig =
    | ConfigObject(options: map<string, string>, globals: Option<Globals>)
    | OtherValue(json: string)

  /** What `JSON.parse(jshintConfig)` does. */
  datatype ParseOutcome =
    | Parsed(config: ParsedConfig)
    | ParsedNull                  // the text was `null`
    | SyntaxError(message: string)

  /** `JSHINT.data()` after a run; `errors` is `None` when it is not an array. */
  datatype EngineData = EngineData(errors: Option<seq<Option<RawFinding>>>)

  type ConfigParser = string -> ParseOutcome

  /**
   * `JSHINT(sourceLines, config, globals)` followed by `JSHINT.data()`; a
   * `Failure` is an exception the engine throws, with its message.
   */
  type Engine = (seq<string>, ParsedConfig, Globals) -> Result<EngineData, string>

  /** Rhino's message for reading `config.globals` when `config` is `null`. */
  const NullConfigMessage: string := "TypeError: Cannot read property \"globals\" from null"

  /** `new Error(error.id, error.code, ..., error.character)`: a field-by-field copy. */
  function ToError(f: RawFinding): (e: Error)
    ensures e.id == f.id && e.code == f.code && e.raw == f.raw && e.evidence == f.evidence
    ensures e.reason == f.reason && e.line == f.line && e.character == f.character
  {
    Error(f.id, f.code, f.raw, f.evidence, f.reason, f.line, f.character)
  }

  /** `config.globals || {}`. */
  function GlobalsOf(config: ParsedConfig): Globals {
    if config.ConfigObject? && config.globals.Some? then config.globals.value else map[]
  }

  /** What the runner's loop appends for `data.errors`: the non-null entries, copied, in order. */
  function CopiedErrors(entries: seq<Option<RawFinding>>): seq<Error>
    decreases |entries|
  {
    if entries == [] then []
    else
      var last := entries[|entries| - 1];
      CopiedErrors(entries[..|entries| - 1]) + (if last.Some? then [ToError(last.value)] else [])
  }

  /** Copying distributes over concatenation: entries are copied independently, in order. */
  lemma {:induction false} CopiedErrorsAppend(a: seq<Option<RawFinding>>, b: seq<Option<RawFinding>>)
    ensures CopiedErrors(a + b) == CopiedErrors(a) + CopiedErrors(b)
    decreases |b|
  {
    if b == [] {
      assert a + b == a;
    } else {
      var b' := b[..|b| - 1];
      assert (a + b)[..|a + b| - 1] == a + b';
      CopiedErrorsAppend(a, b');
    }
  }

  /** Null entries are dropped and nothing else is: the copy has one Error per non-null entry. */
  lemma {:induction false} CopiedErrorsMembership(entries: seq<Option<RawFinding>>, e: Error)
    ensures e in CopiedErrors(entries) <==>
            exists j :: 0 <= j < |entries| && entries[j].Some? && ToError(entries[j].value) == e
    decreases |entries|
  {
    if entries != [] {
      var init := entries[..|entries| - 1];
      CopiedErrorsMembership(init, e);
      if e in CopiedErrors(entries) && e !in CopiedErrors(init) {
        var j := |entries| - 1;
        assert entries[j].Some? && ToError(entries[j].value) == e;
      }
      if exists j :: 0 <= j < |entries| && entries[j].Some? && ToError(entries[j].value) == e {
        var j :| 0 <= j < |entries| && entries[j].Some? && ToError(entries[j].value) == e;
        if j < |entries| - 1 {
          assert init[j] == entries[j];
        }
      }
    }
  }

  /** With no null entries the copy is exactly the engine's list, element by element. */
  lemma {:induction false} CopiedErrorsWithoutNulls(entries: seq<Option<RawFinding>>)
    requires forall j :: 0 <= j < |entries| ==> entries[j].Some?
    ensures |CopiedErrors(entries)| == |entries|
    ensures forall j :: 0 <= j < |entries| ==> CopiedErrors(entries)[j] == ToError(entries[j].value)
    decreases |entries|
  {
    if entries != [] {
      var init := entries[..|entries| - 1];
      CopiedErrorsWithoutNulls(init);
    }
  }

  /**
   * The outcome of one `runJSHint(sourceLines)`: the Errors it appends to
   * `errors`, or what it throws. A configuration that does not parse fails
   * before the engine runs; an engine that throws fails before the loop. In
   * both cases nothing is appended.
   */
  function RunnerAppends(parse: ConfigParser, engine: Engine, sourceLines: seq<string>,
                         jshintConfig: string): Result<seq<Error>, Exception>
  {
    match parse(jshintConfig)
    case SyntaxError(m) => Failure(WrappedMojo("Error parsing JSHint JSON config: " + m))
    case ParsedNull => Failure(ScriptError(NullConfigMessage))
    case Parsed(config) =>
      match engine(sourceLines, config, GlobalsOf(config))
      case Failure(m) => Failure(ScriptError(m))
      case Success(data) => Success(if data.errors.Some? then CopiedErrors(data.errors.value) else [])
  }

  /**
   * The runner fails exactly when the configuration is not JSON or is
   * `null`, or when the engine throws; only a syntax error is wrapped, and
   * the engine's own exception passes through with its message.
   */
  lemma RunnerFailsOnlyOnConfig(parse: ConfigParser, engine: Engine, sourceLines: seq<string>, jshintConfig: string)
    ensures RunnerAppends(parse, engine, sourceLines, jshintConfig).Failure? <==>
      !parse(jshintConfig).Parsed? ||
      (var config := parse(jshintConfig).config; engine(sourceLines, config, GlobalsOf(config)).Failure?)
    ensures parse(jshintConfig).Parsed? && RunnerAppends(parse, engine, sourceLines, jshintConfig).Failure? ==>
      (var config := parse(jshintConfig).config;
       RunnerAppends(parse, engine, sourceLines, jshintConfig).error ==
         ScriptError(engine(sourceLines, config, GlobalsOf(config)).error))
    ensures parse(jshintConfig).SyntaxError? ==>
      RunnerAppends(parse, engine, sourceLines, jshintConfig).error.RuntimeException? &&
      RunnerAppends(parse, engine, sourceLines, jshintConfig).error.cause.MojoExecutionException?
  {
  }

  /** Every Error the runner reports is the copy of a non-null engine entry, and every non-null entry is reported. */
  lemma RunnerReportsEngineFindings(parse: ConfigParser, engine: Engine, sourceLines: seq<string>,
                                    jshintConfig: string, e: Error)
    requires parse(jshintConfig).Parsed?
    requires var config := parse(jshintConfig).config; engine(sourceLines, config, GlobalsOf(config)).Success?
    ensures var config := parse(jshintConfig).config;
      var data := engine(sourceLines, config, GlobalsOf(config)).value;
      RunnerAppends(parse, engine, sourceLines, jshintConfig).Success? &&
      (e in RunnerAppends(parse, engine, sourceLines, jshintConfig).value <==>
        data.errors.Some? &&
        exists j :: 0 <= j < |data.errors.value| && data.errors.value[j].Some? &&
                    ToError(data.errors.value[j].value) == e)
  {
    var config := parse(jshintConfig).config;
    var data := engine(sourceLines, config, GlobalsOf(config)).value;
    if data.errors.Some? {
      CopiedErrorsMembership(data.errors.value, e);
    }
  }

  /**
   * A Rhino top-level scope: what the JSHint script defined in it, the
   * runner's own `runJSHint`, and the three bindings a hinter puts before
   * each run.
   */
  class RhinoScope {
    var jshintLoaded: bool
    var runJSHintDefined: bool
    var errors: ErrorList?
    var sourceLines: seq<string>
    var jshintConfig: string

    /** `cx.initStandardObjects(null, false)`: a scope with nothing of ours in it. */
    constructor ()
      ensures !jshintLoaded && !runJSHintDefined && errors == null
      ensures sourceLines == [] && jshintConfig == ""
    {
      jshintLoaded := false;
      runJSHintDefined := false;
      errors := null;
      sourceLines := [];
      jshintConfig := "";
    }

    /** Executing the JSHint script once defines `JSHINT` in this scope. */
    method LoadJSHint()
      modifies this
      ensures jshintLoaded && runJSHintDefined == old(runJSHintDefined)
      ensures errors == old(errors) && sourceLines == old(sourceLines) && jshintConfig == old(jshintConfig)
    {
      jshintLoaded := true;
    }

    /**
     * One execution of the runner script: install `runJSHint` unless it is
     * already a function, then call it. It parses `jshintConfig`, runs the
     * engine with `config.globals || {}` (an exception of the engine
     * propagates), and appends a copy of every
     * non-null entry of `data.errors` to `errors`, in the engine's order.
     */
    method ExecRunner(parse: ConfigParser, engine: Engine) returns (thrown: Option<Exception>)
      requires jshintLoaded && errors != null
      modifies this, errors
      ensures runJSHintDefined && jshintLoaded
      ensures errors == old(errors) && sourceLines == old(sourceLines) && jshintConfig == old(jshintConfig)
      ensures match RunnerAppends(parse, engine, sourceLines, jshintConfig)
              case Success(found) => thrown.None? && errors.items == old(errors.items) + found
              case Failure(ex) => thrown == Some(ex) && errors.items == old(errors.items)
    {
      if !runJSHintDefined {
        runJSHintDefined := true;
      }
      match parse(jshintConfig)
      case SyntaxError(m) =>
        thrown := Some(WrappedMojo("Error parsing JSHint JSON config: " + m));
      case ParsedNull =>
        thrown := Some(ScriptError(NullConfigMessage));
      case Parsed(config) =>
        var run := engine(sourceLines, config, GlobalsOf(config));
        if run.Failure? {
          thrown := Some(ScriptError(run.error));
          return;
        }
        var data := run.value;
        if data.errors.Some? {
          var entries := data.errors.value;
          var list := errors;
          var eidx := 0;
          while eidx < |entries|
            modifies list
            invariant 0 <= eidx <= |entries|
            invariant list.items == old(list.items) + CopiedErrors(entries[..eidx])
          {
            var error := entries[eidx];
            assert entries[..eidx + 1][..eidx] == entries[..eidx];
            if error.Some? {
              list.Add(ToError(error.value));
            }
            eidx := eidx + 1;
          }
          assert entries[..|entries|] == entries;
        }
        thrown := None;
    }
  }
}
