/** `JvmResolver`: maps a qualified name, asked for on behalf of a context file, to
    at most one eligible project source file, memoised by name in a cache that the
    caller threads through explicitly. */
module Resolver {
  import opened Wrappers
  import opened Text
  import opened Project

  /** `resolveCache`: name to last answer; a stored `None` is Kotlin's stored `null`. */
  type Cache = map<string, Option<string>>

  /** The build-output test: the source root's path contains "/target/" or "/build/". */
  predicate IsBuildDirectory(rootPath: string) {
    Contains(rootPath, "/target/") || Contains(rootPath, "/build/")
  }

  /** `isOfficialSourceFile` of the resolver, as its chain of early returns. */
  predicate IsOfficialSourceFile(facts: IndexFacts) {
    if !facts.inProject then false
    else if !facts.inSource then false
    else if facts.inGeneratedSources then false
    else if facts.generatedByFilter then false
    else if facts.sourceRoot.None? then false
    else if facts.moduleInfo.None? then false
    else if |facts.moduleInfo.value.sourceRoots| > 1 && IsBuildDirectory(facts.sourceRoot.value) then false
    else true
  }

  /** With a single non-test source root, a build-directory root does not exclude the
      file. */
  lemma BuildExclusionNeedsSeveralRoots(facts: IndexFacts)
    requires facts.inProject && facts.inSource && !facts.inGeneratedSources && !facts.generatedByFilter
    requires facts.sourceRoot.Some? && facts.moduleInfo.Some?
    requires |facts.moduleInfo.value.sourceRoots| <= 1
    ensures IsOfficialSourceFile(facts)
  {
  }

  /** The directory test looks for "/build/" with both slashes: a root inside a build
      directory matches, a root whose path merely ends in "/build" does not. */
  lemma BuildDirectoryNeedsBothSlashes()
    ensures IsBuildDirectory("/p/build/gen")
    ensures !IsBuildDirectory("/p/build")
  {
    var s := "/p/build/gen";
    assert s[2..][..7] == "/build/";
    assert Contains(s[2..], "/build/");
    assert Contains(s[1..], "/build/");
    var t := "/p/build";
    assert t[1] != "/target/"[1];
    assert !StartsWith(t, "/target/");
    NoRoomNoContains(t[1..], "/target/");
    assert t[1] != "/build/"[1];
    assert !StartsWith(t, "/build/");
    assert t[1..][0] == 'p' != "/build/"[0];
    assert !StartsWith(t[1..], "/build/");
    assert t[1..][1..] == t[2..];
    NoRoomNoContains(t[2..], "/build/");
  }

  /** The search scope: the context file's module with its dependencies and
      libraries, or the whole project when the file has no module. */
  function ScopeFor(contextFacts: IndexFacts): (scope: Scope)
    ensures scope.ProjectScope? <==> contextFacts.moduleInfo.None?
    ensures scope.ModuleWithDependencies? ==> scope.moduleName == contextFacts.moduleInfo.value.name
  {
    match contextFacts.moduleInfo
    case Some(m) => ModuleWithDependencies(m.name)
    case None => ProjectScope
  }

  /** `resolveInternal`: one class lookup in the context file's scope; the class's file
      is returned only when it is eligible. A lookup that throws, finds nothing, or
      finds a class without a file yields null. */
  function ResolveInternal(host: Host, name: string, contextFile: string): (r: Option<string>)
    ensures r.Some? ==> host.findClass(name, ScopeFor(host.facts(contextFile))) == ClassIn(r.value)
    ensures r.Some? ==> IsOfficialSourceFile(host.facts(r.value))
    ensures host.findClass(name, ScopeFor(host.facts(contextFile))).Throws? ==> r.None?
    ensures var found := host.findClass(name, ScopeFor(host.facts(contextFile)));
      found.ClassIn? && IsOfficialSourceFile(host.facts(found.file)) ==> r == Some(found.file)
  {
    match host.findClass(name, ScopeFor(host.facts(contextFile)))
    case ClassIn(f) => if IsOfficialSourceFile(host.facts(f)) then Some(f) else None
    case _ => None
  }

  /** When the context file has a module, only the module scope is searched: a miss
      there is final, whatever the project scope would find. */
  lemma NoProjectScopeRetry(host: Host, name: string, contextFile: string)
    requires host.facts(contextFile).moduleInfo.Some?
    requires !host.findClass(name, ModuleWithDependencies(host.facts(contextFile).moduleInfo.value.name)).ClassIn?
    ensures ResolveInternal(host, name, contextFile).None?
  {
  }

  /** Every non-null answer in the cache is an eligible file. */
  ghost predicate CacheSound(host: Host, cache: Cache) {
    forall n :: n in cache && cache[n].Some? ==> IsOfficialSourceFile(host.facts(cache[n].value))
  }

  /** Every non-null answer in the cache lies in `universe`. */
  ghost predicate CacheWithin(cache: Cache, universe: set<string>) {
    forall n :: n in cache && cache[n].Some? ==> cache[n].value in universe
  }

  /** `resolve`: `resolveCache.getOrPut(name) { resolveInternal(...) }`. `getOrPut`
      treats a stored null as absent, so only a non-null answer is ever reused; a null
      one is recomputed, and stored again. */
  function Resolve(host: Host, cache: Cache, name: string, contextFile: string): (res: (Option<string>, Cache))
    ensures res.1.Keys == cache.Keys + {name}
    ensures res.1[name] == res.0
    ensures forall n :: n in cache && n != name ==> res.1[n] == cache[n]
    ensures name in cache && cache[name].Some? ==> res.0 == cache[name]
    ensures !(name in cache && cache[name].Some?) ==> res.0 == ResolveInternal(host, name, contextFile)
    ensures CacheSound(host, cache) ==> CacheSound(host, res.1)
    ensures CacheSound(host, cache) && res.0.Some? ==> IsOfficialSourceFile(host.facts(res.0.value))
  {
    if name in cache && cache[name].Some? then
      (cache[name], cache)
    else
      var r := ResolveInternal(host, name, contextFile);
      (r, cache[name := r])
  }

  /** Answers found by lookups stay inside a universe that holds every lookup result. */
  lemma ResolveWithin(host: Host, cache: Cache, name: string, contextFile: string, universe: set<string>)
    requires Closed(host, universe) && CacheWithin(cache, universe)
    ensures CacheWithin(Resolve(host, cache, name, contextFile).1, universe)
    ensures Resolve(host, cache, name, contextFile).0.Some? ==> Resolve(host, cache, name, contextFile).0.value in universe
  {
    var scope := ScopeFor(host.facts(contextFile));
    assert host.findClass(name, scope).ClassIn? ==> host.findClass(name, scope).file in universe;
  }

  /** `clearCache`: forget every answer. */
  function ClearCache(cache: Cache): (cleared: Cache)
    ensures forall n :: n !in cleared
  {
    map[]
  }

  /** After `clearCache`, the next `resolve` of any name performs a fresh lookup for
      its own context file. */
  lemma ResolveAfterClear(host: Host, cache: Cache, name: string, contextFile: string)
    ensures Resolve(host, ClearCache(cache), name, contextFile).0 == ResolveInternal(host, name, contextFile)
  {
  }

  /** The cache is keyed by name alone: once `name` has resolved to a file, every later
      `resolve` of `name` returns that file, whichever file asks, and leaves the cache
      as it is. */
  lemma CachedAnswerIgnoresContext(host: Host, cache: Cache, name: string, first: string, later: string)
    requires Resolve(host, cache, name, first).0.Some?
    ensures Resolve(host, Resolve(host, cache, name, first).1, name, later) == Resolve(host, cache, name, first)
  {
  }

  /** A null answer is not memoised: the next `resolve` of the same name looks the class
      up again, for the new context file. */
  lemma NullIsRecomputed(host: Host, cache: Cache, name: string, first: string, later: string)
    requires Resolve(host, cache, name, first).0.None?
    ensures Resolve(host, Resolve(host, cache, name, first).1, name, later).0 == ResolveInternal(host, name, later)
  {
  }
}
