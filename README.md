# jshint-maven-plugin, modelled in Dafny

A model of the core of Acosix's `jshint-maven-plugin`: the `jshint` Maven goal
that lints a project's JavaScript sources with JSHint run inside an embedded
JavaScript engine. The model covers:

- the decisions and bookkeeping around the engine, with the engine kept abstract:
  - how the goal composes its include and exclude patterns, turning `.jshintignore` lines into excludes;
  - how it picks the backend and the JSHint script;
  - how it loads the default configuration;
  - how it counts the files with findings, decides whether the build fails, and unwraps `RuntimeException(MojoExecutionException)`;
- the cascading, cached `.jshintrc` lookup shared by the hinters;
- the argument checks and effective-configuration choice of `executeJSHint`;
- the lazy engine initialisation of the Rhino hinter and the load-once flag of the Nashorn hinter, and the fresh `errors` list both bind on every call;
- the Rhino runner script, which copies the engine's non-null findings in order;
- the `Error` value type;
- the Checkstyle XML report, as the sequence of writer calls it makes.

Files, one Dafny module each:

| file | module | models |
|---|---|---|
| `lang.dfy` | `JavaLang` | `null`, exceptions, `int`, `String.valueOf(int)`, Plexus `StringUtils.isBlank` (by `Character.isWhitespace`), `lastIndexOf`, `startsWith` |
| `errors.dfy` | `Errors` | `Error`, and the `ArrayList<Error>` the runner fills |
| `runner.dfy` | `Runner` | `jshint-rhino-runner.js` and the Rhino scope it runs in |
| `environment.dfy` | `Environment` | the file system, class path, JSON parser, JSHINT, directory scanner and Nashorn availability, as one value |
| `abstract_jshinter.dfy` | `AbstractJSHinter` | `executeJSHint`'s checks and configuration choice, `lookupCustomJSHintConfig` and its cache |
| `rhino_jshinter.dfy` | `RhinoJSHinter` | `RhinoJSHinter` |
| `nashorn_jshinter.dfy` | `NashornJSHinter` | `NashornJSHinter` |
| `checkstyle_reporter.dfy` | `CheckstyleReporter` | `CheckstyleJSHintReporter` |
| `jshint_mojo.dfy` | `JshintMojo` | `JSHintMojo` |

Each stateful Java class is a Dafny class. Its methods are proved against a
pure function of the old state and the inputs:

- `RhinoExecute` for `RhinoJSHinter.executeJSHint`;
- `NashornExecute` for the Nashorn hinter;
- `ResolveOverride` for the lookup;
- `Run` of a plan for `generateReport`;
- `ExecuteOutcome` for `JSHintMojo.execute`.

Lemmas then state what the source promises about those functions.

Behaviour worth knowing:

- The lookup never caches the absence of a `.jshintrc`. It caches only a directory where one was read.
- When Nashorn is available and Rhino is not preferred, `execute` does not use Nashorn. It throws `MojoExecutionException("Nashorn is not yet supported")`.
- `executeJSHint` checks only that the base directory is not `null`. It does not check that the directory exists.
- The Rhino hinter never retries a failed initialisation: the scope is assigned before the scripts are compiled. The Nashorn hinter does retry.
- Whether findings fail the build is decided inside the goal, by `failOnError`.
- Blankness, for configuration texts, arguments and `.jshintignore` lines alike, is Plexus `StringUtils.isBlank`: every character passes `Character.isWhitespace`. So U+3000 is blank while U+00A0 and control characters such as U+0007 are not.

## Model

| member | source | states |
|---|---|---|
| `JavaLang.LastIndexOf` | src/main/java/de/acosix/maven/jshint/AbstractJSHinter.java:146-149 | the result is -1 or a position of the separator, and no separator follows it |
| `JavaLang.DecimalStringRoundTrip` | src/main/java/de/acosix/maven/jshint/CheckstyleJSHintReporter.java:68-69 | `String.valueOf(int)` is decimal notation: a leading minus exactly for negative numbers, then digits, and it parses back to the number |
| `Errors.GettersReturnArguments` | src/main/java/de/acosix/maven/jshint/Error.java:42-108 | every getter returns the constructor's argument unchanged; any position and any `null` string is accepted |
| `Errors.ErrorList.constructor` | src/main/java/de/acosix/maven/jshint/RhinoJSHinter.java:152 | a new list is empty |
| `Errors.ErrorList.Add` | src/main/resources/de/acosix/maven/jshint/jshint-rhino-runner.js:51 | `add` appends exactly the element at the end |
| `Runner.ToError` | src/main/resources/de/acosix/maven/jshint/jshint-rhino-runner.js:51 | the new Error copies id, code, raw, evidence, reason, line and character field by field |
| `Runner.CopiedErrorsAppend` | src/main/resources/de/acosix/maven/jshint/jshint-rhino-runner.js:46-53 | the copy loop treats entries independently and in order: copying a concatenation concatenates the copies |
| `Runner.CopiedErrorsMembership` | src/main/resources/de/acosix/maven/jshint/jshint-rhino-runner.js:44-53 | an Error is appended if and only if it is the copy of some non-null engine entry |
| `Runner.CopiedErrorsWithoutNulls` | src/main/resources/de/acosix/maven/jshint/jshint-rhino-runner.js:46-52 | with no null entries the appended list is the engine's list, element by element |
| `Runner.RunnerFailsOnlyOnConfig` | src/main/resources/de/acosix/maven/jshint/jshint-rhino-runner.js:31-40 | the runner fails exactly when the configuration text is not JSON or is `null`, or when JSHINT throws; only a syntax error is wrapped as `RuntimeException(MojoExecutionException)`, and the engine's exception passes through with its message |
| `Runner.RunnerReportsEngineFindings` | src/main/resources/de/acosix/maven/jshint/jshint-rhino-runner.js:40-53 | with a parsed configuration and an engine that returns, the runner succeeds, and reports exactly the copies of the non-null entries of `data.errors` (nothing when it is not an array) |
| `Runner.RhinoScope.constructor` | src/main/java/de/acosix/maven/jshint/RhinoJSHinter.java:192 | a new scope holds neither JSHINT, `runJSHint` nor any binding |
| `Runner.RhinoScope.LoadJSHint` | src/main/java/de/acosix/maven/jshint/RhinoJSHinter.java:194-196 | executing the JSHint script defines JSHINT and leaves the bindings alone |
| `Runner.RhinoScope.ExecRunner` | src/main/resources/de/acosix/maven/jshint/jshint-rhino-runner.js:17-59 | `runJSHint` is defined once and reused; on success the bound list gains exactly the runner's Errors, on failure it is unchanged and the exception is the runner's |
| `AbstractJSHinter.ConfigCache.constructor` | src/main/java/de/acosix/maven/jshint/AbstractJSHinter.java:43 | a new hinter's cache is empty |
| `AbstractJSHinter.AncestorsArePrefixes` | src/main/java/de/acosix/maven/jshint/AbstractJSHinter.java:146-149 | every directory the lookup visits is the path cut just before one of its separators, so each recursive call gets a strictly shorter path |
| `AbstractJSHinter.AncestorsComplete` | src/main/java/de/acosix/maven/jshint/AbstractJSHinter.java:146-170 | every separator of the path yields a visited directory: no level is skipped |
| `AbstractJSHinter.AncestorsNearestFirst` | src/main/java/de/acosix/maven/jshint/AbstractJSHinter.java:146-170 | directories are visited nearest first, each strictly shorter than the one before |
| `AbstractJSHinter.DirChain` | src/main/java/de/acosix/maven/jshint/AbstractJSHinter.java:151-182 | the probed directories are `base/sub` for each ancestor `sub`, ending with the base directory itself |
| `AbstractJSHinter.NearestOverrideWins` | src/main/java/de/acosix/maven/jshint/AbstractJSHinter.java:142-196 | the lookup yields a text if and only if it is the `.jshintrc` of some directory on the chain with none nearer; farther ones are never merged |
| `AbstractJSHinter.NoOverrideAnywhere` | src/main/java/de/acosix/maven/jshint/RhinoJSHinter.java:304-350 | the lookup yields `null` if and only if no directory on the chain has a `.jshintrc` |
| `AbstractJSHinter.DirChainUnfold` | src/main/java/de/acosix/maven/jshint/AbstractJSHinter.java:149-170 | the chain for a path with a separator is its parent directory followed by the chain of the shorter path |
| `AbstractJSHinter.LookupCustomJSHintConfig` | src/main/java/de/acosix/maven/jshint/AbstractJSHinter.java:142-196 | with a cache that agrees with the file system, the answer is the uncached nearest override; the cache keeps its entries, gains at most the one directory where an override was read, gains nothing when none was found, and cached directories are never probed |
| `AbstractJSHinter.ValidateArguments` | src/main/java/de/acosix/maven/jshint/AbstractJSHinter.java:63-76 | the checks pass if and only if the base directory is set and neither path nor default configuration is blank; otherwise an `IllegalArgumentException` |
| `AbstractJSHinter.FallBackToDefault` | src/main/java/de/acosix/maven/jshint/AbstractJSHinter.java:87-91 | a non-blank looked-up text is used unchanged; a missing or blank one is replaced by the default |
| `AbstractJSHinter.ChooseEffectiveConfig` | src/main/java/de/acosix/maven/jshint/RhinoJSHinter.java:138-150 | the configuration is `EffectiveConfig`, the cache stays consistent, and with the ignore flag the cache is not touched |
| `AbstractJSHinter.EffectiveConfigChoice` | src/main/java/de/acosix/maven/jshint/AbstractJSHinter.java:80-92 | the effective configuration is never blank; it is the default or the nearest override's text; with the ignore flag it is exactly the default |
| `AbstractJSHinter.IgnoringOverridesIsHavingNone` | src/main/java/de/acosix/maven/jshint/AbstractJSHinter.java:81-84 | ignoring overrides gives the same configuration as the same tree with every `.jshintrc` removed |
| `RhinoJSHinter.ResolveJSHintScript` | src/main/java/de/acosix/maven/jshint/RhinoJSHinter.java:57-92 | a missing log or blank version/path is an `IllegalArgumentException`; a version names `jshint-<version>-rhino.js` next to the class; an unresolvable resource is `RuntimeException(MojoExecutionException("Error resolving …"))`; success is always an existing resource |
| `RhinoJSHinter.ResolveJSHintScriptFile` | src/main/java/de/acosix/maven/jshint/RhinoJSHinter.java:94-109 | succeeds if and only if log and file are given, and then keeps the file as it is |
| `RhinoJSHinter.ReadyCallIsLintFile` | src/main/java/de/acosix/maven/jshint/RhinoJSHinter.java:116-172 | once initialised, a call is exactly the lint of the file, and the engine stays ready |
| `RhinoJSHinter.InitialisedAtMostOnce` | src/main/java/de/acosix/maven/jshint/RhinoJSHinter.java:183-211 | only a call rejected by the argument checks leaves the engine uninitialised; an initialised engine keeps its state; a successful call leaves it ready |
| `RhinoJSHinter.FailedInitialisationIsNotRetried` | src/main/java/de/acosix/maven/jshint/RhinoJSHinter.java:185-205 | a failed initialisation throws `RuntimeException(MojoExecutionException)` and leaves the scope without a runner; every later valid call fails with a `NullPointerException` |
| `RhinoJSHinter.RepeatedCallIsDeterministic` | src/main/java/de/acosix/maven/jshint/RhinoJSHinter.java:116-172 | from a ready engine, linting the same file twice gives the same findings in the same order |
| `RhinoJSHinter.RhinoJSHinter.constructor` | src/main/java/de/acosix/maven/jshint/RhinoJSHinter.java:57-109 | a constructed hinter holds its resolved script, no scope and an empty cache |
| `RhinoJSHinter.RhinoJSHinter.EnsureEngineInitialisation` | src/main/java/de/acosix/maven/jshint/RhinoJSHinter.java:183-211 | the exception and new engine state are `InitEngine` of the old state: initialise only while there is no scope, and keep the scope once assigned |
| `RhinoJSHinter.RhinoJSHinter.ExecuteJSHint` | src/main/java/de/acosix/maven/jshint/RhinoJSHinter.java:116-172 | result and engine state are `RhinoExecute`: checks before initialisation, then configuration, lines and runner; a returned list is new, holds the findings and is the one bound as `errors` next to this call's lines and configuration |
| `NashornJSHinter.LoadFlagIsMonotone` | src/main/java/de/acosix/maven/jshint/NashornJSHinter.java:84-102 | the load flag only goes from false to true, only when the script loads, and is true after any successful call |
| `NashornJSHinter.FailedLoadIsRetried` | src/main/java/de/acosix/maven/jshint/NashornJSHinter.java:93-100 | a failed load throws `RuntimeException(MojoExecutionException("Error loading jshint script"))` and leaves the flag false, so a later call loads and lints |
| `NashornJSHinter.BackendsAgree` | src/main/java/de/acosix/maven/jshint/NashornJSHinter.java:58-82 | once loaded, Nashorn returns the same findings as the Rhino lint and fails on the same inputs; only a failing runner's exception differs |
| `NashornJSHinter.EvalRunner` | src/main/java/de/acosix/maven/jshint/NashornJSHinter.java:72-79 | the bound list gains the runner's Errors, or the evaluation fails with `RuntimeException(MojoExecutionException("Error running jshint validations"))` and the list is unchanged |
| `NashornJSHinter.NashornJSHinter.constructor` | src/main/java/de/acosix/maven/jshint/NashornJSHinter.java:41-51 | nothing loaded, nothing bound, an empty cache |
| `NashornJSHinter.NashornJSHinter.EnsureEngineInitialisation` | src/main/java/de/acosix/maven/jshint/NashornJSHinter.java:84-102 | while the flag is false the script is bound and loaded; the flag is set only after a successful load |
| `NashornJSHinter.NashornJSHinter.ExecuteJSHintImpl` | src/main/java/de/acosix/maven/jshint/NashornJSHinter.java:58-82 | result and flag are `NashornLint`; the engine is initialised before the lines are read; once the file is read a new list is bound as `errors`, with `sourceLines`, `jshintConfig` and `runnerScript` overwritten by this call's values, even when the runner then fails; on success that list is returned; before that point only `jshintScript` may have been bound |
| `NashornJSHinter.NashornJSHinter.ExecuteJSHint` | src/main/java/de/acosix/maven/jshint/AbstractJSHinter.java:60-104 | result and flag are `NashornExecute`; the list returned is the one the implementation filled |
| `CheckstyleReporter.Severity` | src/main/java/de/acosix/maven/jshint/CheckstyleJSHintReporter.java:71-82 | the severity is `error` or `warning`, and `error` if and only if the code starts with `E` |
| `CheckstyleReporter.ErrorElementOf` | src/main/java/de/acosix/maven/jshint/CheckstyleJSHintReporter.java:66-85 | `line` is `getLine`, `column` is `getCharacter` (both in decimal), `message` is `getReason`, and the severity follows the code |
| `CheckstyleReporter.ErrorElements` | src/main/java/de/acosix/maven/jshint/CheckstyleJSHintReporter.java:64-86 | one `error` element per Error, in list order |
| `CheckstyleReporter.ReportDocument` | src/main/java/de/acosix/maven/jshint/CheckstyleJSHintReporter.java:52-91 | root `checkstyle` with `version="7.1.2"`; one `file` element per entry, in order, named by its key, even for an empty list |
| `CheckstyleReporter.RunWritesPrefix` | src/main/java/de/acosix/maven/jshint/CheckstyleJSHintReporter.java:47-96 | whatever goes wrong, what reached the output is a prefix of the intended events |
| `CheckstyleReporter.RunCompletes` | src/main/java/de/acosix/maven/jshint/CheckstyleJSHintReporter.java:47-92 | nothing is thrown if and only if no code is missing and every event fits, and then every event was written |
| `CheckstyleReporter.RunThrows` | src/main/java/de/acosix/maven/jshint/CheckstyleJSHintReporter.java:93-96 | the only exceptions are the wrapped writer failure and the `NullPointerException` of a missing code |
| `CheckstyleReporter.ErrorsPlanSerializes` | src/main/java/de/acosix/maven/jshint/CheckstyleJSHintReporter.java:64-86 | the inner loop's writer calls are exactly the serialised `error` elements |
| `CheckstyleReporter.FilesPlanSerializes` | src/main/java/de/acosix/maven/jshint/CheckstyleJSHintReporter.java:56-89 | the outer loop's writer calls are exactly the serialised `file` elements |
| `CheckstyleReporter.ReportPlanSerializes` | src/main/java/de/acosix/maven/jshint/CheckstyleJSHintReporter.java:52-91 | the writer calls the reporter intends are exactly the serialised report document |
| `CheckstyleReporter.ErrorsPlanChecks` | src/main/java/de/acosix/maven/jshint/CheckstyleJSHintReporter.java:72-74 | a code check can fail only on an Error whose code is `null` |
| `CheckstyleReporter.CompleteReport` | src/main/java/de/acosix/maven/jshint/CheckstyleJSHintReporter.java:43-97 | with every code present and room enough, the whole document is written and nothing is thrown |
| `CheckstyleReporter.ReportOutput.constructor` | src/main/java/de/acosix/maven/jshint/CheckstyleJSHintReporter.java:49-50 | a new output has received nothing |
| `CheckstyleReporter.ReportOutput.Write` | src/main/java/de/acosix/maven/jshint/CheckstyleJSHintReporter.java:52-91 | a writer call appends exactly its event when there is room, and otherwise fails and changes nothing |
| `CheckstyleReporter.WriteErrorElement` | src/main/java/de/acosix/maven/jshint/CheckstyleJSHintReporter.java:66-85 | one `error` element is written in the order start, `line`, `column`, code check, `severity`, `message`, end, or the run stops where the plan says |
| `CheckstyleReporter.WriteFileElement` | src/main/java/de/acosix/maven/jshint/CheckstyleJSHintReporter.java:61-88 | one `file` element holding an `error` element per Error, or the run stops where the plan says |
| `CheckstyleReporter.GenerateReport` | src/main/java/de/acosix/maven/jshint/CheckstyleJSHintReporter.java:43-97 | earlier output is kept; the events written and the exception thrown are `Run` of the report's plan on the output's room |
| `JshintMojo.IncludePatterns` | src/main/java/de/acosix/maven/jshint/JSHintMojo.java:387-399 | never empty: the configured patterns, or `*.js` and `**/*.js` when none are configured |
| `JshintMojo.IgnorePrefix` | src/main/java/de/acosix/maven/jshint/JSHintMojo.java:443-451 | `null` if and only if the ignore file's path has no separator; otherwise everything before its last separator |
| `JshintMojo.IgnoreEntriesAreNonBlankLines` | src/main/java/de/acosix/maven/jshint/JSHintMojo.java:463-477 | an exclude comes from an ignore file if and only if it is a non-blank line, untrimmed, under the file's directory when it has one; there are never more excludes than lines |
| `JshintMojo.BlankMeansJavaWhitespace` | src/main/java/de/acosix/maven/jshint/JSHintMojo.java:466 | a line of ideographic or em spaces is dropped like a tab, while a BEL control or a non-breaking space becomes an exclude |
| `JshintMojo.IgnoreExcludesFailure` | src/main/java/de/acosix/maven/jshint/JSHintMojo.java:453-482 | loading fails if and only if some ignore file cannot be read, and always with `RuntimeException(MojoExecutionException("Error loading .jshintignore"))` |
| `JshintMojo.IgnoreExcludesMembership` | src/main/java/de/acosix/maven/jshint/JSHintMojo.java:439-489 | the loaded excludes are exactly the excludes of every ignore file |
| `JshintMojo.ExcludesComposition` | src/main/java/de/acosix/maven/jshint/JSHintMojo.java:401-417 | the configured excludes come first and unchanged, followed by the ignore files' excludes unless they are ignored; ignored ignore files are not read and cannot make the lookup fail |
| `JshintMojo.LoadExcludesFromJSHintIgnores` | src/main/java/de/acosix/maven/jshint/JSHintMojo.java:431-497 | the nested loop produces `IgnoreExcludes` of the ignore files |
| `JshintMojo.AddIgnoreLines` | src/main/java/de/acosix/maven/jshint/JSHintMojo.java:463-477 | the line loop appends the file's excludes after those already collected |
| `JshintMojo.LookupJavaScriptFilesToInclude` | src/main/java/de/acosix/maven/jshint/JSHintMojo.java:382-429 | the scanned files for the composed includes and excludes, or the ignore-file load error |
| `JshintMojo.DefaultJSHintConfig` | src/main/java/de/acosix/maven/jshint/JSHintMojo.java:323-380 | the base-directory file when it exists, else the class-path resource, else `{}`; each read failure has its own wrapped message |
| `JshintMojo.ProjectFileShadowsClassPath` | src/main/java/de/acosix/maven/jshint/JSHintMojo.java:326-329 | when the default configuration file exists in the project, the class path has no influence |
| `JshintMojo.ScriptChoice` | src/main/java/de/acosix/maven/jshint/JSHintMojo.java:256-273 | an existing `jshintScript` file wins; else `jshintScript` as a resource path; the version is used only when no script is configured; a chosen script always exists |
| `JshintMojo.StepAgreesWithLint` | src/main/java/de/acosix/maven/jshint/JSHintMojo.java:284-288 | a call from a fresh or ready engine succeeds if and only if the file lints on its own (and the script can be read when fresh); it then returns that lint and leaves the engine ready |
| `JshintMojo.TallyCountsFilesWithFindings` | src/main/java/de/acosix/maven/jshint/JSHintMojo.java:282-294 | the loop finishes if and only if every file lints and the script can be read, and then counts exactly the files with findings, never more than the files |
| `JshintMojo.CheckFiles` | src/main/java/de/acosix/maven/jshint/JSHintMojo.java:282-294 | the loop stops at the first exception; otherwise `filesChecked` is the number of files and `filesWithErrors` the number of non-empty lists |
| `JshintMojo.Unwrapped` | src/main/java/de/acosix/maven/jshint/JSHintMojo.java:313-320 | a `RuntimeException` caused by a `MojoExecutionException` becomes that cause; anything else passes unchanged |
| `JshintMojo.FilesWithErrorsCounts` | src/main/java/de/acosix/maven/jshint/JSHintMojo.java:252-294 | a run that reaches the files counts exactly the files with findings; Nashorn without `preferRhino` is refused before any file is linted |
| `JshintMojo.BuildFailsOnFindings` | src/main/java/de/acosix/maven/jshint/JSHintMojo.java:298-320 | `MojoFailureException` is thrown if and only if all files were linted, some have findings and `failOnError` is set; its message names the count; a wrapped `MojoExecutionException` never escapes |
| `JshintMojo.ErrorsFoundMessageNamesCount` | src/main/java/de/acosix/maven/jshint/JSHintMojo.java:300 | different counts never share a failure message |
| `JshintMojo.Execute` | src/main/java/de/acosix/maven/jshint/JSHintMojo.java:248-321 | what `execute` throws is `ExecuteOutcome`: files first, then backend and script, then default configuration, then the loop and the failure decision |

## Left out

- File reading is not modelled byte by byte. Each file is either readable (its text and the lines a `BufferedReader` yields) or unreadable. UTF-8 decoding and line splitting are left out.
- `java.io.File` normalisation is left out. `new File(dir, name)` is `dir + "/" + name`, and the separator is fixed to `/`.
- The JavaScript engines are left out: Rhino contexts and compilation, Nashorn's `ScriptEngine`, `JSON.parse` and JSHINT itself. JSON parsing and JSHINT are parameters of the host. JSHINT may throw, and a configuration may parse to any JSON value, not only an object.
  - JSHint's script is modelled as loading whenever it can be read. An error raised while executing it is not modelled.
  - The runner script is modelled as always compiling.
- The Nashorn runner script `jshint-nashorn-runner.js` is not part of this model. It is taken to behave like the Rhino runner, and any failure of it surfaces as a `ScriptException`.
- `NashornJSHinter`'s constructors call superclass constructors, and it reads a `jshintScript` field; neither exists in `AbstractJSHinter`. Construction is modelled as holding an already resolved script handle.
- The unreachable branch of `compileJSHintScript` for a script that is neither a URL nor a file is not modelled.
- `DirectoryScanner` is a function of the host. This covers glob matching, `addDefaultExcludes`, how `.jshintignore` files are found, and the scanner's failure on a missing directory.
- Class-path lookup is a map of absolute resource names. `Class.getResource` for a relative name is that map at the package path.
- Logging is left out: `log.info`, `log.debug`, `log.error` and `reportErrors`. None of it changes a returned value.
- The `synchronized` modifier on `executeJSHint` is left out. It is concurrency only.
- The static `NASHORN_AVAILABLE` probe is a boolean of the host.
- Maven parameter binding and the setters of `JSHintMojo` are left out. The parameters are one `Parameters` value.
- StAX formatting is left out: `IndentingXMLStreamWriter` indentation, XML escaping, and the encoding of `writeStartDocument`. The report is the sequence of writer calls.
- `JSHinter` and `JSHintReporter` are signature-only interfaces. The implementing classes carry their behaviour.
- Whether a writer accepts a `null` `message` attribute is not modelled. The call is recorded like any other.
- `CheckstyleReporter.GenerateReport`: the `Map` argument is a sequence of entries in its iteration order. The `HashMap` ordering itself is not modelled.
- `CheckstyleReporter.ReportOutput.Write`: the writer fails once a fixed number of events has been accepted. Failures that depend on the events themselves are not modelled.
- `JshintMojo.CheckFiles`: the counters are unbounded naturals. Java's `int` would wrap after 2^31 files.
- `JshintMojo.Execute`: the goal's log is always present, as Maven guarantees. The `log not provided` checks of the hinters are modelled, but the goal never triggers them.
