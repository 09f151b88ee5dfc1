/**
 * What `AbstractJSHinter` and `RhinoJSHinter` share: the argument checks of
 * `executeJSHint`, the choice of the effective configuration, and the
 * cascading `.jshintrc` lookup with its per-hinter cache. The two Java
 * classes carry identical copies of `lookupCustomJSHintConfig`; here it is
 * written once and both hinter classes call it on their own cache object.
 */
module AbstractJSHinter {
  import opened JavaLang
  import opened Errors
  import opened Runner
  import opened Environment

  /** The name of a per-directory override file. */
  const ConfigFileName: string := ".jshintrc"

  /** `new File(dir, ".jshintrc")`. */
  function ConfigFile(dir: string): string {
    Child(dir, ConfigFileName)
  }

  /** The `effectiveJSHintConfig` HashMap: directory to the override text found there. */
  class ConfigCache {
    var entries: map<string, string>

    constructor ()
      ensures entries == map[]
    {
      entries := map[];
    }
  }

  /** What probing one directory for `.jshintrc` gives. */
  datatype Probe = Found(content: string) | ReadFailed(file: string) | Absent

  function ProbeDir(host: Host, dir: string): Probe {
    var file := ConfigFile(dir);
    if file !in host.files then Absent
    else match host.files[file]
      case Readable(text, _) => Found(text)
      case Unreadable => ReadFailed(file)
  }

  /**
   * The directories of `path` relative to the base directory, nearest first:
   * `path` cut before each of its separators, from the last separator to
   * the first.
   */
  function Ancestors(path: string): seq<string>
    decreases |path|
  {
    var i := LastIndexOf(path, Separator);
    if i < 0 then [] else [path[..i]] + Ancestors(path[..i])
  }

  /** Each ancestor is `path` cut just before one of its separators. */
  lemma {:induction false} AncestorsArePrefixes(path: string)
    ensures forall k :: 0 <= k < |Ancestors(path)| ==>
      |Ancestors(path)[k]| < |path| && path[|Ancestors(path)[k]|] == Separator &&
      Ancestors(path)[k] == path[..|Ancestors(path)[k]|]
    decreases |path|
  {
    var i := LastIndexOf(path, Separator);
    if i >= 0 {
      var sub := path[..i];
      AncestorsArePrefixes(sub);
      forall k | 0 <= k < |Ancestors(path)|
        ensures |Ancestors(path)[k]| < |path| && path[|Ancestors(path)[k]|] == Separator &&
                Ancestors(path)[k] == path[..|Ancestors(path)[k]|]
      {
        if k > 0 {
          assert Ancestors(path)[k] == Ancestors(sub)[k - 1];
        }
      }
    }
  }

  /** Every separator of `path` gives an ancestor: no directory level is skipped. */
  lemma {:induction false} AncestorsComplete(path: string, j: nat)
    requires j < |path| && path[j] == Separator
    ensures path[..j] in Ancestors(path)
    decreases |path|
  {
    var i := LastIndexOf(path, Separator);
    if j < i {
      var sub := path[..i];
      assert sub[j] == Separator;
      AncestorsComplete(sub, j);
      assert sub[..j] == path[..j];
    }
  }

  /** Ancestors come nearest first: each is strictly shorter than the one before. */
  lemma {:induction false} AncestorsNearestFirst(path: string)
    ensures forall k, m :: 0 <= k < m < |Ancestors(path)| ==> |Ancestors(path)[k]| > |Ancestors(path)[m]|
    decreases |path|
  {
    var i := LastIndexOf(path, Separator);
    if i >= 0 {
      var sub := path[..i];
      AncestorsNearestFirst(sub);
      AncestorsArePrefixes(sub);
      forall k, m | 0 <= k < m < |Ancestors(path)|
        ensures |Ancestors(path)[k]| > |Ancestors(path)[m]|
      {
        assert Ancestors(path)[m] == Ancestors(sub)[m - 1];
        if k > 0 {
          assert Ancestors(path)[k] == Ancestors(sub)[k - 1];
        }
      }
    }
  }

  /** The directories the lookup may visit for `path`, nearest first, ending with the base directory. */
  function DirChain(baseDirectory: string, path: string): (chain: seq<string>)
    ensures |chain| == |Ancestors(path)| + 1 && chain[|chain| - 1] == baseDirectory
    ensures forall k :: 0 <= k < |Ancestors(path)| ==> chain[k] == Child(baseDirectory, Ancestors(path)[k])
  {
    var a := Ancestors(path);
    seq(|a|, k requires 0 <= k < |a| => Child(baseDirectory, a[k])) + [baseDirectory]
  }

  /** The content of the first override on `chain`, or the error reading it; `None` when there is none. */
  function NearestOverride(host: Host, chain: seq<string>): Result<Option<string>, Exception>
    decreases |chain|
  {
    if chain == [] then Success(None)
    else match ProbeDir(host, chain[0])
      case Found(text) => Success(Some(text))
      case ReadFailed(file) => Failure(WrappedMojo("Error loading " + file))
      case Absent => NearestOverride(host, chain[1..])
  }

  /** The nearest override wins outright: contents of farther ones are never looked at, let alone merged. */
  lemma {:induction false} NearestOverrideWins(host: Host, chain: seq<string>, text: string)
    ensures NearestOverride(host, chain) == Success(Some(text)) <==>
      exists k :: 0 <= k < |chain| && ProbeDir(host, chain[k]) == Found(text) &&
                  forall m :: 0 <= m < k ==> ProbeDir(host, chain[m]).Absent?
    decreases |chain|
  {
    if chain != [] {
      NearestOverrideWins(host, chain[1..], text);
      if ProbeDir(host, chain[0]).Absent? {
        if exists k :: 0 <= k < |chain| && ProbeDir(host, chain[k]) == Found(text) &&
                       forall m :: 0 <= m < k ==> ProbeDir(host, chain[m]).Absent? {
          var k :| 0 <= k < |chain| && ProbeDir(host, chain[k]) == Found(text) &&
                   forall m :: 0 <= m < k ==> ProbeDir(host, chain[m]).Absent?;
          assert k > 0;
          assert ProbeDir(host, chain[1..][k - 1]) == Found(text);
          assert forall m :: 0 <= m < k - 1 ==> chain[1..][m] == chain[m + 1];
        }
        if NearestOverride(host, chain) == Success(Some(text)) {
          var k :| 0 <= k < |chain[1..]| && ProbeDir(host, chain[1..][k]) == Found(text) &&
                   forall m :: 0 <= m < k ==> ProbeDir(host, chain[1..][m]).Absent?;
          assert forall m :: 1 <= m < k + 1 ==> chain[m] == chain[1..][m - 1];
          assert ProbeDir(host, chain[k + 1]) == Found(text);
        }
      } else {
        if exists k :: 0 <= k < |chain| && ProbeDir(host, chain[k]) == Found(text) &&
                       forall m :: 0 <= m < k ==> ProbeDir(host, chain[m]).Absent? {
          var k :| 0 <= k < |chain| && ProbeDir(host, chain[k]) == Found(text) &&
                   forall m :: 0 <= m < k ==> ProbeDir(host, chain[m]).Absent?;
          assert k == 0;
        }
      }
    }
  }

  /** No override anywhere on the chain is exactly when the lookup yields nothing. */
  lemma {:induction false} NoOverrideAnywhere(host: Host, chain: seq<string>)
    ensures NearestOverride(host, chain) == Success(None) <==>
      forall k :: 0 <= k < |chain| ==> ProbeDir(host, chain[k]).Absent?
    decreases |chain|
  {
    if chain != [] {
      NoOverrideAnywhere(host, chain[1..]);
      assert forall k :: 1 <= k < |chain| ==> chain[k] == chain[1..][k - 1];
    }
  }

  /** The override the lookup resolves for `path` under `baseDirectory`, without any cache. */
  function ResolveOverride(host: Host, baseDirectory: string, path: string): Result<Option<string>, Exception> {
    NearestOverride(host, DirChain(baseDirectory, path))
  }

  /** A cache agrees with the file system: every entry is the readable `.jshintrc` of its directory. */
  ghost predicate CacheConsistent(entries: map<string, string>, host: Host) {
    forall d :: d in entries ==> ProbeDir(host, d) == Found(entries[d])
  }

  lemma DirChainUnfold(baseDirectory: string, path: string)
    requires LastIndexOf(path, Separator) >= 0
    ensures var sub := path[..LastIndexOf(path, Separator)];
      DirChain(baseDirectory, path) == [Child(baseDirectory, sub)] + DirChain(baseDirectory, sub)
  {
    var sub := path[..LastIndexOf(path, Separator)];
    var a, b := Ancestors(path), Ancestors(sub);
    assert a == [sub] + b;
    var chain, rest := DirChain(baseDirectory, path), DirChain(baseDirectory, sub);
    var unfolded := [Child(baseDirectory, sub)] + rest;
    assert |chain| == |unfolded|;
    forall k | 0 <= k < |chain| ensures chain[k] == unfolded[k] {
      if k == 0 {
        assert a[0] == sub;
      } else if k < |chain| - 1 {
        assert a[k] == b[k - 1] && unfolded[k] == rest[k - 1];
      } else {
        assert unfolded[k] == rest[|rest| - 1];
      }
    }
  }

  /**
   * `lookupCustomJSHintConfig`: walk from the directory of `path` up to
   * `baseDirectory`; at each level answer from the cache if it holds the
   * directory, otherwise probe `.jshintrc` there, caching what is found.
   * The answer is the uncached nearest override; the cache only gains the
   * one directory where an override was read, and absence is never cached.
   * `probed` lists the directories whose `.jshintrc` was looked at.
   */
  method LookupCustomJSHintConfig(cache: ConfigCache, host: Host, baseDirectory: string, path: string)
    returns (r: Result<Option<string>, Exception>, ghost probed: seq<string>)
    requires CacheConsistent(cache.entries, host)
    modifies cache
    ensures r == ResolveOverride(host, baseDirectory, path)
    ensures CacheConsistent(cache.entries, host)
    ensures forall d :: d in old(cache.entries) ==> d in cache.entries && cache.entries[d] == old(cache.entries)[d]
    ensures !(r.Success? && r.value.Some?) ==> cache.entries == old(cache.entries)
    ensures cache.entries == old(cache.entries) ||
      exists d :: d in DirChain(baseDirectory, path) && d !in old(cache.entries) &&
                  cache.entries == old(cache.entries)[d := r.value.value]
    ensures |probed| <= |DirChain(baseDirectory, path)| && probed == DirChain(baseDirectory, path)[..|probed|]
    ensures forall d :: d in probed ==> d !in old(cache.entries)
    decreases |path|
  {
    var lastSeparatorIdx := LastIndexOf(path, Separator);
    if lastSeparatorIdx != -1 {
      var subPath := path[..lastSeparatorIdx];
      var pathKey := Child(baseDirectory, subPath);
      DirChainUnfold(baseDirectory, path);
      var chain := DirChain(baseDirectory, path);
      assert chain[0] == pathKey && chain[1..] == DirChain(baseDirectory, subPath);
      if pathKey in cache.entries {
        r := Success(Some(cache.entries[pathKey]));
        probed := [];
      } else {
        probed := [pathKey];
        match ProbeDir(host, pathKey)
        case Found(text) =>
          r := Success(Some(text));
          cache.entries := cache.entries[pathKey := text];
        case ReadFailed(file) =>
          r := Failure(WrappedMojo("Error loading " + file));
        case Absent =>
          assert ResolveOverride(host, baseDirectory, path) == ResolveOverride(host, baseDirectory, subPath);
          ghost var rest;
          r, rest := LookupCustomJSHintConfig(cache, host, baseDirectory, subPath);
          probed := probed + rest;
      }
    } else {
      assert DirChain(baseDirectory, path) == [baseDirectory];
      if baseDirectory in cache.entries {
        r := Success(Some(cache.entries[baseDirectory]));
        probed := [];
      } else {
        probed := [baseDirectory];
        match ProbeDir(host, baseDirectory)
        case Found(text) =>
          r := Success(Some(text));
          cache.entries := cache.entries[baseDirectory := text];
        case ReadFailed(file) =>
          r := Failure(WrappedMojo("Error loading " + file));
        case Absent =>
          assert [baseDirectory][1..] == [] && NearestOverride(host, []) == Success(None);
          r := Success(None);
      }
    }
  }

  /** The argument checks of `executeJSHint`, in their order; `None` when all pass. */
  function ValidateArguments(baseDirectory: Option<string>, path: JString, defaultJSHintConfigContent: JString)
    : (r: Option<Exception>)
    ensures r.None? <==> baseDirectory.Some? && !IsBlank(path) && !IsBlank(defaultJSHintConfigContent)
    ensures r.Some? ==> r.value.IllegalArgumentException?
  {
    if baseDirectory.None? then Some(IllegalArgumentException("baseDirectory not provided"))
    else if IsBlank(path) then Some(IllegalArgumentException("path not provided"))
    else if IsBlank(defaultJSHintConfigContent) then Some(IllegalArgumentException("defaultJSHintConfigContent not provided"))
    else None
  }

  /** The looked-up content unless it is missing or blank, else the default. */
  function FallBackToDefault(lookedUp: Option<string>, defaultJSHintConfigContent: string): (config: string)
    ensures !IsBlank(lookedUp) ==> config == lookedUp.value
    ensures IsBlank(lookedUp) ==> config == defaultJSHintConfigContent
  {
    if IsBlank(lookedUp) then defaultJSHintConfigContent else lookedUp.value
  }

  /**
   * The effective configuration of one call: the default when overrides
   * are ignored, otherwise the nearest override unless it is missing or
   * blank.
   */
  function EffectiveConfig(host: Host, baseDirectory: string, path: string, defaultJSHintConfigContent: string,
                           ignoreJSConfigFileOnPaths: bool): Result<string, Exception>
  {
    if ignoreJSConfigFileOnPaths then Success(defaultJSHintConfigContent)
    else match ResolveOverride(host, baseDirectory, path)
      case Failure(e) => Failure(e)
      case Success(found) => Success(FallBackToDefault(found, defaultJSHintConfigContent))
  }

  /**
   * The configuration step of `executeJSHint`: the default when overrides
   * are ignored, otherwise the cached lookup with the blank fallback.
   */
  method ChooseEffectiveConfig(cache: ConfigCache, host: Host, baseDirectory: string, path: string,
                               defaultJSHintConfigContent: string, ignoreJSConfigFileOnPaths: bool)
    returns (r: Result<string, Exception>)
    requires CacheConsistent(cache.entries, host)
    modifies cache
    ensures r == EffectiveConfig(host, baseDirectory, path, defaultJSHintConfigContent, ignoreJSConfigFileOnPaths)
    ensures CacheConsistent(cache.entries, host)
    ensures ignoreJSConfigFileOnPaths ==> cache.entries == old(cache.entries)
  {
    if ignoreJSConfigFileOnPaths {
      return Success(defaultJSHintConfigContent);
    }
    var found;
    ghost var probed;
    found, probed := LookupCustomJSHintConfig(cache, host, baseDirectory, path);
    if found.Failure? {
      return Failure(found.error);
    }
    return Success(FallBackToDefault(found.value, defaultJSHintConfigContent));
  }

  /** The effective configuration is never blank when the default is not, and it is the default or an override's content. */
  lemma EffectiveConfigChoice(host: Host, baseDirectory: string, path: string, defaultJSHintConfigContent: string,
                              ignoreJSConfigFileOnPaths: bool)
    requires !IsBlank(Some(defaultJSHintConfigContent))
    ensures var r := EffectiveConfig(host, baseDirectory, path, defaultJSHintConfigContent, ignoreJSConfigFileOnPaths);
      r.Success? ==> (!IsBlank(Some(r.value)) &&
        (r.value == defaultJSHintConfigContent || ResolveOverride(host, baseDirectory, path) == Success(Some(r.value))))
    ensures ignoreJSConfigFileOnPaths ==>
      EffectiveConfig(host, baseDirectory, path, defaultJSHintConfigContent, ignoreJSConfigFileOnPaths) ==
      Success(defaultJSHintConfigContent)
  {
  }

  /** The same file system with every `.jshintrc` removed. */
  function WithoutOverrides(host: Host): (h: Host)
    ensures forall d :: ProbeDir(h, d).Absent?
  {
    var files := map p | p in host.files && !IsConfigFileName(p) :: host.files[p];
    assert forall d :: IsConfigFileName(ConfigFile(d)) by {
      forall d ensures IsConfigFileName(ConfigFile(d)) {
        var f := ConfigFile(d);
        assert f[|f| - |ConfigFileName| - 1..] == [Separator] + ConfigFileName;
      }
    }
    host.(files := files)
  }

  /** Whether a path names a `.jshintrc` file. */
  predicate IsConfigFileName(p: string) {
    var suffix := [Separator] + ConfigFileName;
    |p| >= |suffix| && p[|p| - |suffix|..] == suffix
  }

  /** Ignoring overrides gives the same configuration as a tree that has none. */
  lemma {:induction false} IgnoringOverridesIsHavingNone(host: Host, baseDirectory: string, path: string,
                                                         defaultJSHintConfigContent: string)
    ensures EffectiveConfig(host, baseDirectory, path, defaultJSHintConfigContent, true) ==
            EffectiveConfig(WithoutOverrides(host), baseDirectory, path, defaultJSHintConfigContent, false)
  {
    var h := WithoutOverrides(host);
    NoOverrideAnywhere(h, DirChain(baseDirectory, path));
  }

  /**
   * The checks and the lint of one file once the engine is ready: the
   * effective configuration, the file's lines, then the runner.
   */
  function LintFile(host: Host, baseDirectory: Option<string>, path: JString, defaultJSHintConfigContent: JString,
                    ignoreJSConfigFileOnPaths: bool): Result<seq<Error>, Exception>
  {
    match ValidateArguments(baseDirectory, path, defaultJSHintConfigContent)
    case Some(e) => Failure(e)
    case None =>
      match EffectiveConfig(host, baseDirectory.value, path.value, defaultJSHintConfigContent.value, ignoreJSConfigFileOnPaths)
      case Failure(e) => Failure(e)
      case Success(config) =>
        match ReadSourceLines(host, baseDirectory.value, path.value)
        case Failure(e) => Failure(e)
        case Success(lines) => RunnerAppends(host.parse, host.engine, lines, config)
  }
}
