/** `ContextCollector` of `CodeCollector.kt`: the dependency-closure walk with
    exception handling, a cleared resolver cache, and the "official source" test,
    plus the source-root tree walk of `collectAllFiles`. */
module Collector {
  import opened Wrappers
  import opened Text
  import opened Files
  import opened Parser
  import opened Project
  import opened Resolver
  import opened Walks

  /** `isOfficialSourceFile` of the collector: in the project, in a source root, not
      in generated sources, in a module, and under one of that module's non-test
      source roots. */
  predicate IsProjectSource(facts: IndexFacts) {
    && facts.inProject
    && facts.inSource
    && !facts.inGeneratedSources
    && facts.moduleInfo.Some?
    && HasAncestorRoot(facts.moduleInfo.value)
  }

  /** One of the module's non-test source roots is an ancestor of the file. */
  predicate HasAncestorRoot(m: ModuleInfo) {
    exists i :: 0 <= i < |m.sourceRoots| && m.sourceRoots[i].isAncestorOfFile
  }

  /** The collector's test and the resolver's eligibility test are two different
      copies of "official source". Beyond their common part, the resolver also rejects
      files a generated-sources filter claims, files without a source root, and files
      under a build-directory root of a module with several roots, while the collector
      also demands a module root that is an ancestor of the file. A file passes both
      exactly when it meets the common part and all of those extra demands. */
  lemma EligibilityCompared(facts: IndexFacts)
    ensures IsProjectSource(facts) && IsOfficialSourceFile(facts) <==>
      && facts.inProject && facts.inSource && !facts.inGeneratedSources
      && facts.moduleInfo.Some? && HasAncestorRoot(facts.moduleInfo.value)
      && !facts.generatedByFilter && facts.sourceRoot.Some?
      && !(|facts.moduleInfo.value.sourceRoots| > 1 && IsBuildDirectory(facts.sourceRoot.value))
  {
  }

  /** Neither test implies the other: a filter-generated file under an ancestor root
      passes only the collector's, and a file with a source root that no module root
      contains passes only the resolver's. */
  lemma EligibilityDiffers()
    ensures var m := ModuleInfo("app", [RootInfo("/p/src", true)]);
      var generated := IndexFacts(true, true, true, false, true, Some("/p/src"), Some(m));
      IsProjectSource(generated) && !IsOfficialSourceFile(generated)
    ensures var m := ModuleInfo("app", [RootInfo("/p/src", false)]);
      var outside := IndexFacts(true, true, true, false, false, Some("/p/src"), Some(m));
      IsOfficialSourceFile(outside) && !IsProjectSource(outside)
  {
    var m := ModuleInfo("app", [RootInfo("/p/src", true)]);
    assert m.sourceRoots[0].isAncestorOfFile;
  }

  /** `isSupported`: a Java or Kotlin file that is valid, exists, and is official
      project source. */
  predicate IsSupported(host: Host, path: string) {
    IsSourceExtension(path) && host.facts(path).valid && IsProjectSource(host.facts(path))
  }

  /** Every non-null cached answer naming a supported file has been visited, except
      possibly `pending`, the file about to be processed. */
  ghost predicate CacheTargetsVisited(host: Host, st: Walk, pending: Option<string>) {
    forall n :: n in st.cache && st.cache[n].Some? && IsSupported(host, st.cache[n].value) ==>
      st.cache[n].value in st.processed || pending == Some(st.cache[n].value)
  }

  /** What holds of the walk state between steps: contexts cover processed files
      only, once each, faithfully; processed files are all supported; a processed
      file lacks a context only if reading it failed; the cache holds eligible files
      of the universe, and each supported one has been visited. */
  ghost predicate Valid(host: Host, universe: set<string>, st: Walk, pending: Option<string>) {
    && PathsOf(st.contexts) <= st.processed
    && NoDuplicatePaths(st.contexts)
    && ContextsFaithful(host, st.contexts)
    && (forall p :: p in st.processed ==> IsSupported(host, p))
    && (forall p :: p in st.processed && host.content(p).Some? ==> p in PathsOf(st.contexts))
    && CacheSound(host, st.cache)
    && CacheWithin(st.cache, universe)
    && CacheTargetsVisited(host, st, pending)
  }

  /** Skipping a processed or unsupported file keeps the state valid. */
  lemma SkipStep(host: Host, universe: set<string>, f: string, st: Walk)
    requires Valid(host, universe, st, Some(f))
    requires f in st.processed || !IsSupported(host, f)
    ensures Valid(host, universe, st, None)
  {
  }

  /** Marking a supported file processed keeps the state valid when its read fails. */
  lemma MarkStep(host: Host, universe: set<string>, f: string, st: Walk)
    requires Valid(host, universe, st, Some(f))
    requires f !in st.processed && IsSupported(host, f) && host.content(f).None?
    ensures Valid(host, universe, st.(processed := st.processed + {f}), None)
  {
  }

  /** Marking a supported file processed and appending its context keeps the state
      valid, and the new context is the file's own. */
  lemma AppendStep(host: Host, universe: set<string>, f: string, st: Walk, text: string)
    requires Valid(host, universe, st, Some(f))
    requires f !in st.processed && IsSupported(host, f) && host.content(f) == Some(text)
    ensures Valid(host, universe, Walk(st.processed + {f}, st.contexts + [FileContext(f, text, RelativePath(host.basePath, f))], st.cache), None)
  {
    var c := FileContext(f, text, RelativePath(host.basePath, f));
    var cs := st.contexts + [c];
    var n := Walk(st.processed + {f}, cs, st.cache);
    PathsOfAppend(st.contexts, c);
    assert PathsOf(cs) <= n.processed;
    AppendKeepsDistinct(st.contexts, c, st.processed);
    AppendKeepsFaithful(host, st.contexts, c);
    assert forall p :: p in n.processed && host.content(p).Some? ==> p in PathsOf(cs);
    assert CacheTargetsVisited(host, n, None);
  }

  /** Resolving a name keeps the state valid, with the answer, if any, pending. */
  lemma ResolveStep(host: Host, universe: set<string>, st: Walk, name: string, contextFile: string)
    requires Closed(host, universe)
    requires Valid(host, universe, st, None)
    ensures var res := Resolve(host, st.cache, name, contextFile);
      && Valid(host, universe, st.(cache := res.1), res.0)
      && (res.0.Some? ==> res.0.value in universe)
      && CacheGrows(st.cache, res.1)
  {
    ResolveWithin(host, st.cache, name, contextFile, universe);
  }

  /** `processFile`. A processed or unsupported file changes nothing. Otherwise the
      file is marked processed first; if reading it throws, the exception is caught
      and nothing else happens. If it reads, its context is appended, and, when the
      host parses it, each name `parseImports` yields is followed in turn. */
  function ProcessFile(host: Host, universe: set<string>, f: string, st: Walk): (r: Walk)
    requires Closed(host, universe) && CacheWithin(st.cache, universe)
    ensures Grows(st, r) && CacheWithin(r.cache, universe)
    ensures IsSupported(host, f) ==> f in r.processed
    decreases |universe - st.processed|, if f in universe then 1 else 3
  {
    if f in st.processed || !IsSupported(host, f) then
      st
    else
      var marked := st.(processed := st.processed + {f});
      match host.content(f)
      case None => marked
      case Some(text) =>
        var added := Walk(st.processed + {f}, st.contexts + [FileContext(f, text, RelativePath(host.basePath, f))], st.cache);
        AppendGrows(st, f, FileContext(f, text, RelativePath(host.basePath, f)));
        VisitShrinks(universe, st.processed, f);
        match host.psi(f)
        case None => added
        case Some(parsed) =>
          var r := FollowRefs(host, universe, f, ParseImports(parsed), 0, added);
          GrowsTransitive(st, added, r);
          r
  }

  /** The `imports.forEach` loop of `processFile`, from position `i`: each name is
      followed in parser order. */
  function FollowRefs(host: Host, universe: set<string>, contextFile: string, refs: seq<ImportInfo>, i: nat, st: Walk): (r: Walk)
    requires Closed(host, universe) && CacheWithin(st.cache, universe)
    requires i <= |refs|
    ensures Grows(st, r) && CacheWithin(r.cache, universe)
    decreases |universe - st.processed|, 2, |refs| - i
  {
    if i == |refs| then
      st
    else
      var next := FollowName(host, universe, contextFile, refs[i].fqName, st);
      UnvisitedShrinks(universe, st.processed, next.processed);
      var r := FollowRefs(host, universe, contextFile, refs, i + 1, next);
      GrowsTransitive(st, next, r);
      r
  }

  /** One pass of the loop: resolve `name` for `contextFile`, then process the file
      it resolves to; a null answer is skipped. The name ends up in the cache. */
  function FollowName(host: Host, universe: set<string>, contextFile: string, name: string, st: Walk): (r: Walk)
    requires Closed(host, universe) && CacheWithin(st.cache, universe)
    ensures Grows(st, r) && CacheWithin(r.cache, universe)
    ensures name in r.cache
    decreases |universe - st.processed|, 2, 0
  {
    var res := Resolve(host, st.cache, name, contextFile);
    ResolveWithin(host, st.cache, name, contextFile, universe);
    ResolveGrowsCache(host, st.cache, name, contextFile);
    var resolved := st.(cache := res.1);
    if res.0.Some? then
      var r := ProcessFile(host, universe, res.0.value, resolved);
      GrowsTransitive(st, resolved, r);
      r
    else
      resolved
  }

  /** What one `processFile` call does to the state: a processed or unsupported file
      leaves it as it is; a supported one whose read throws is only marked processed;
      a supported one that reads has its own context next in the list. */
  lemma ProcessFileShape(host: Host, universe: set<string>, f: string, st: Walk)
    requires Closed(host, universe) && CacheWithin(st.cache, universe)
    ensures var r := ProcessFile(host, universe, f, st);
      && (f in st.processed || !IsSupported(host, f) ==> r == st)
      && (f !in st.processed && IsSupported(host, f) && host.content(f).None? ==>
            r == st.(processed := st.processed + {f}))
      && (f !in st.processed && IsSupported(host, f) && host.content(f).Some? ==>
            |r.contexts| > |st.contexts| &&
            r.contexts[|st.contexts|] == FileContext(f, host.content(f).value, RelativePath(host.basePath, f)))
  {
    if f !in st.processed && IsSupported(host, f) && host.content(f).Some? {
      var c := FileContext(f, host.content(f).value, RelativePath(host.basePath, f));
      var added := Walk(st.processed + {f}, st.contexts + [c], st.cache);
      var r := ProcessFile(host, universe, f, st);
      assert added.contexts <= r.contexts;
      assert r.contexts[|st.contexts|] == added.contexts[|st.contexts|];
    }
  }

  /** After the import loop, every name from position `i` on has been asked of the
      resolver and sits in its cache. */
  lemma {:induction false} FollowRefsCaches(host: Host, universe: set<string>, contextFile: string, refs: seq<ImportInfo>, i: nat, st: Walk)
    requires Closed(host, universe) && CacheWithin(st.cache, universe)
    requires i <= |refs|
    ensures var r := FollowRefs(host, universe, contextFile, refs, i, st);
      forall k :: i <= k < |refs| ==> refs[k].fqName in r.cache
    decreases |refs| - i
  {
    if i < |refs| {
      var next := FollowName(host, universe, contextFile, refs[i].fqName, st);
      FollowRefsCaches(host, universe, contextFile, refs, i + 1, next);
    }
  }

  /** `processFile` keeps the walk state valid and discharges the pending file. */
  lemma {:induction false} ProcessFileKeepsValid(host: Host, universe: set<string>, f: string, st: Walk)
    requires Closed(host, universe)
    requires Valid(host, universe, st, Some(f))
    ensures Valid(host, universe, ProcessFile(host, universe, f, st), None)
    decreases |universe - st.processed|, if f in universe then 1 else 3
  {
    if f in st.processed || !IsSupported(host, f) {
      SkipStep(host, universe, f, st);
    } else {
      match host.content(f)
      case None =>
        MarkStep(host, universe, f, st);
      case Some(text) =>
        var added := Walk(st.processed + {f}, st.contexts + [FileContext(f, text, RelativePath(host.basePath, f))], st.cache);
        AppendStep(host, universe, f, st, text);
        VisitShrinks(universe, st.processed, f);
        match host.psi(f)
        case None =>
        case Some(parsed) =>
          FollowRefsKeepsValid(host, universe, f, ParseImports(parsed), 0, added);
    }
  }

  /** The import loop keeps the walk state valid. */
  lemma {:induction false} FollowRefsKeepsValid(host: Host, universe: set<string>, contextFile: string, refs: seq<ImportInfo>, i: nat, st: Walk)
    requires Closed(host, universe)
    requires Valid(host, universe, st, None)
    requires i <= |refs|
    ensures Valid(host, universe, FollowRefs(host, universe, contextFile, refs, i, st), None)
    decreases |universe - st.processed|, 2, |refs| - i
  {
    if i < |refs| {
      FollowNameKeepsValid(host, universe, contextFile, refs[i].fqName, st);
      var next := FollowName(host, universe, contextFile, refs[i].fqName, st);
      UnvisitedShrinks(universe, st.processed, next.processed);
      FollowRefsKeepsValid(host, universe, contextFile, refs, i + 1, next);
    }
  }

  /** One pass of the import loop keeps the walk state valid. */
  lemma {:induction false} FollowNameKeepsValid(host: Host, universe: set<string>, contextFile: string, name: string, st: Walk)
    requires Closed(host, universe)
    requires Valid(host, universe, st, None)
    ensures Valid(host, universe, FollowName(host, universe, contextFile, name, st), None)
    decreases |universe - st.processed|, 2, 0
  {
    var res := Resolve(host, st.cache, name, contextFile);
    ResolveStep(host, universe, st, name, contextFile);
    if res.0.Some? {
      ProcessFileKeepsValid(host, universe, res.0.value, st.(cache := res.1));
    }
  }

  /** Every name parsed from a processed, readable, parsed file outside `exempt` has
      been asked of the resolver. */
  ghost predicate ImportsAsked(host: Host, st: Walk, exempt: set<string>) {
    forall p, k ::
      p in st.processed && p !in exempt && host.content(p).Some? && host.psi(p).Some? &&
      0 <= k < |ParseImports(host.psi(p).value)| ==>
        ParseImports(host.psi(p).value)[k].fqName in st.cache
  }

  /** Growth keeps names asked for the files processed before. */
  lemma AskedSurvivesGrowth(host: Host, before: Walk, after: Walk, exempt: set<string>)
    requires ImportsAsked(host, before, exempt) && Grows(before, after)
    ensures ImportsAsked(host, after.(processed := before.processed), exempt)
  {
  }

  /** A newly processed file is exempt until its own names have been asked. */
  lemma AskedAfterAppend(host: Host, st: Walk, f: string, c: FileContext, exempt: set<string>)
    requires ImportsAsked(host, st, exempt)
    ensures ImportsAsked(host, Walk(st.processed + {f}, st.contexts + [c], st.cache), exempt + {f})
  {
  }

  /** A file that did not read or did not parse has no names to ask. */
  lemma AskedWithoutNames(host: Host, before: Walk, after: Walk, f: string, exempt: set<string>)
    requires ImportsAsked(host, before, exempt)
    requires after.processed == before.processed + {f} && after.cache == before.cache
    requires host.content(f).None? || host.psi(f).None?
    ensures ImportsAsked(host, after, exempt)
  {
  }

  /** Once a file's own names are in the cache it need not be exempt. */
  lemma DischargeExempt(host: Host, st: Walk, f: string, exempt: set<string>)
    requires ImportsAsked(host, st, exempt + {f})
    requires host.psi(f).Some? ==>
      forall k :: 0 <= k < |ParseImports(host.psi(f).value)| ==> ParseImports(host.psi(f).value)[k].fqName in st.cache
    ensures ImportsAsked(host, st, exempt)
  {
  }

  /** `processFile` asks the resolver every name parsed from each file it processes. */
  lemma {:induction false} ProcessFileAsks(host: Host, universe: set<string>, f: string, st: Walk, exempt: set<string>)
    requires Closed(host, universe) && CacheWithin(st.cache, universe)
    requires ImportsAsked(host, st, exempt)
    ensures ImportsAsked(host, ProcessFile(host, universe, f, st), exempt)
    decreases |universe - st.processed|, if f in universe then 1 else 3
  {
    if f !in st.processed && IsSupported(host, f) {
      match host.content(f)
      case None =>
        AskedWithoutNames(host, st, ProcessFile(host, universe, f, st), f, exempt);
      case Some(text) =>
        var c := FileContext(f, text, RelativePath(host.basePath, f));
        var added := Walk(st.processed + {f}, st.contexts + [c], st.cache);
        VisitShrinks(universe, st.processed, f);
        match host.psi(f)
        case None =>
          AskedWithoutNames(host, st, added, f, exempt);
        case Some(parsed) =>
          var refs := ParseImports(parsed);
          AskedAfterAppend(host, st, f, c, exempt);
          FollowRefsAsks(host, universe, f, refs, 0, added, exempt + {f});
          FollowRefsCaches(host, universe, f, refs, 0, added);
          var r := FollowRefs(host, universe, f, refs, 0, added);
          assert ProcessFile(host, universe, f, st) == r;
          DischargeExempt(host, r, f, exempt);
    }
  }

  /** The import loop keeps every processed file's names asked. */
  lemma {:induction false} FollowRefsAsks(host: Host, universe: set<string>, contextFile: string, refs: seq<ImportInfo>, i: nat, st: Walk, exempt: set<string>)
    requires Closed(host, universe) && CacheWithin(st.cache, universe)
    requires i <= |refs|
    requires ImportsAsked(host, st, exempt)
    ensures ImportsAsked(host, FollowRefs(host, universe, contextFile, refs, i, st), exempt)
    decreases |universe - st.processed|, 2, |refs| - i
  {
    if i < |refs| {
      FollowNameAsks(host, universe, contextFile, refs[i].fqName, st, exempt);
      var next := FollowName(host, universe, contextFile, refs[i].fqName, st);
      UnvisitedShrinks(universe, st.processed, next.processed);
      FollowRefsAsks(host, universe, contextFile, refs, i + 1, next, exempt);
    }
  }

  /** One pass of the import loop keeps every processed file's names asked. */
  lemma {:induction false} FollowNameAsks(host: Host, universe: set<string>, contextFile: string, name: string, st: Walk, exempt: set<string>)
    requires Closed(host, universe) && CacheWithin(st.cache, universe)
    requires ImportsAsked(host, st, exempt)
    ensures ImportsAsked(host, FollowName(host, universe, contextFile, name, st), exempt)
    decreases |universe - st.processed|, 2, 0
  {
    var res := Resolve(host, st.cache, name, contextFile);
    ResolveWithin(host, st.cache, name, contextFile, universe);
    ResolveGrowsCache(host, st.cache, name, contextFile);
    var resolved := st.(cache := res.1);
    AskedSurvivesGrowth(host, st, resolved, exempt);
    if res.0.Some? {
      ProcessFileAsks(host, universe, res.0.value, resolved, exempt);
    }
  }

  /** `processFile` of a root, or of a reached file, visits nothing it was not led to. */
  lemma {:induction false} ProcessFileJustified(host: Host, universe: set<string>, f: string, st: Walk, roots: seq<string>)
    requires Closed(host, universe) && CacheWithin(st.cache, universe)
    requires Justified(host, st, roots)
    requires f in roots || Answered(host, st, f)
    ensures Justified(host, ProcessFile(host, universe, f, st), roots)
    decreases |universe - st.processed|, if f in universe then 1 else 3
  {
    if f !in st.processed && IsSupported(host, f) {
      match host.content(f)
      case None =>
        JustifiedGrows(host, st, st.(processed := st.processed + {f}), roots, f);
      case Some(text) =>
        var c := FileContext(f, text, RelativePath(host.basePath, f));
        var added := Walk(st.processed + {f}, st.contexts + [c], st.cache);
        AppendGrows(st, f, c);
        JustifiedGrows(host, st, added, roots, f);
        VisitShrinks(universe, st.processed, f);
        match host.psi(f)
        case None =>
        case Some(parsed) =>
          FollowRefsJustified(host, universe, f, ParseImports(parsed), 0, added, roots);
    }
  }

  /** The import loop of a processed, parsed file visits nothing it was not led to. */
  lemma {:induction false} FollowRefsJustified(host: Host, universe: set<string>, contextFile: string, refs: seq<ImportInfo>, i: nat, st: Walk, roots: seq<string>)
    requires Closed(host, universe) && CacheWithin(st.cache, universe)
    requires i <= |refs|
    requires Justified(host, st, roots)
    requires ImportListOf(host, st.processed, contextFile, refs)
    ensures Justified(host, FollowRefs(host, universe, contextFile, refs, i, st), roots)
    decreases |universe - st.processed|, 2, |refs| - i
  {
    if i < |refs| {
      var next := FollowName(host, universe, contextFile, refs[i].fqName, st);
      ImportListStep(host, st.processed, next.processed, contextFile, refs, i);
      FollowNameJustified(host, universe, contextFile, refs[i].fqName, st, roots);
      UnvisitedShrinks(universe, st.processed, next.processed);
      FollowRefsJustified(host, universe, contextFile, refs, i + 1, next, roots);
    }
  }

  /** Following a name that a processed file imports visits nothing it was not led
      to: the answer is reached through that name. */
  lemma {:induction false} FollowNameJustified(host: Host, universe: set<string>, contextFile: string, name: string, st: Walk, roots: seq<string>)
    requires Closed(host, universe) && CacheWithin(st.cache, universe)
    requires Justified(host, st, roots)
    requires contextFile in st.processed && Imports(host, contextFile, name)
    ensures Justified(host, FollowName(host, universe, contextFile, name, st), roots)
    decreases |universe - st.processed|, 2, 0
  {
    var res := Resolve(host, st.cache, name, contextFile);
    ResolveWithin(host, st.cache, name, contextFile, universe);
    ResolveGrowsCache(host, st.cache, name, contextFile);
    var resolved := st.(cache := res.1);
    JustifiedGrows(host, st, resolved, roots, contextFile);
    if res.0.Some? {
      ResolveReaches(host, st, contextFile, name);
      ProcessFileJustified(host, universe, res.0.value, resolved, roots);
    }
  }

  /** The files `collectFromFiles` starts from: `files.filter { isSupported(it) }`. */
  function SupportedSeeds(host: Host, files: seq<string>): (seeds: seq<string>)
    ensures forall x :: x in seeds <==> x in files && IsSupported(host, x)
    ensures |seeds| <= |files|
  {
    if |files| == 0 then []
    else (if IsSupported(host, files[0]) then [files[0]] else []) + SupportedSeeds(host, files[1..])
  }

  /** The seeds are `files` with the unsupported files left out: the rest keep their
      order, and each supported file is kept as many times as it is listed. */
  lemma SupportedSeedsFilter(host: Host, files: seq<string>)
    ensures IsSubsequence(SupportedSeeds(host, files), files)
    ensures forall x :: multiset(SupportedSeeds(host, files))[x] == if IsSupported(host, x) then multiset(files)[x] else 0
  {
    SupportedSeedsInOrder(host, files);
    forall x {
      SupportedSeedsCount(host, files, x);
    }
  }

  /** The seeds keep the order of the selection. */
  lemma {:induction false} SupportedSeedsInOrder(host: Host, files: seq<string>)
    ensures IsSubsequence(SupportedSeeds(host, files), files)
  {
    if |files| > 0 {
      var rest := SupportedSeeds(host, files[1..]);
      SupportedSeedsInOrder(host, files[1..]);
      if IsSupported(host, files[0]) {
        assert SupportedSeeds(host, files) == [files[0]] + rest;
        assert SupportedSeeds(host, files)[1..] == rest;
      } else {
        assert SupportedSeeds(host, files) == rest;
      }
    }
  }

  /** A file occurs among the seeds as often as it was selected when it is kept, and
      never otherwise. */
  lemma {:induction false} SupportedSeedsCount(host: Host, files: seq<string>, x: string)
    ensures multiset(SupportedSeeds(host, files))[x] == if IsSupported(host, x) then multiset(files)[x] else 0
  {
    SupportedSeedsAreFilter(host, files);
    FilterCount(x => IsSupported(host, x), files, x);
  }

  /** The seeds are the selection filtered by `isSupported`. */
  lemma {:induction false} SupportedSeedsAreFilter(host: Host, files: seq<string>)
    ensures SupportedSeeds(host, files) == Filter(x => IsSupported(host, x), files)
  {
    if |files| > 0 {
      SupportedSeedsAreFilter(host, files[1..]);
    }
  }

  /** `forEach { processFile(...) }` over the seeds, in order. */
  function ProcessAll(host: Host, universe: set<string>, seeds: seq<string>, st: Walk): (r: Walk)
    requires Closed(host, universe) && CacheWithin(st.cache, universe)
    ensures Grows(st, r) && CacheWithin(r.cache, universe)
    ensures forall x :: x in seeds && IsSupported(host, x) ==> x in r.processed
    decreases |seeds|
  {
    if |seeds| == 0 then st
    else
      var next := ProcessFile(host, universe, seeds[0], st);
      var r := ProcessAll(host, universe, seeds[1..], next);
      GrowsTransitive(st, next, r);
      assert forall x :: x in seeds ==> x == seeds[0] || x in seeds[1..];
      r
  }

  /** Processing the seeds keeps the walk state valid and every processed file's
      names asked. */
  lemma {:induction false} ProcessAllKeeps(host: Host, universe: set<string>, seeds: seq<string>, st: Walk)
    requires Closed(host, universe) && Valid(host, universe, st, None) && ImportsAsked(host, st, {})
    ensures Valid(host, universe, ProcessAll(host, universe, seeds, st), None)
    ensures ImportsAsked(host, ProcessAll(host, universe, seeds, st), {})
    decreases |seeds|
  {
    if |seeds| > 0 {
      assert Valid(host, universe, st, Some(seeds[0]));
      ProcessFileKeepsValid(host, universe, seeds[0], st);
      ProcessFileAsks(host, universe, seeds[0], st, {});
      ProcessAllKeeps(host, universe, seeds[1..], ProcessFile(host, universe, seeds[0], st));
    }
  }

  /** Processing seeds drawn from `roots` visits nothing it was not led to. */
  lemma {:induction false} ProcessAllJustified(host: Host, universe: set<string>, seeds: seq<string>, st: Walk, roots: seq<string>)
    requires Closed(host, universe) && CacheWithin(st.cache, universe)
    requires Justified(host, st, roots)
    requires forall x :: x in seeds ==> x in roots
    ensures Justified(host, ProcessAll(host, universe, seeds, st), roots)
    decreases |seeds|
  {
    if |seeds| > 0 {
      ProcessFileJustified(host, universe, seeds[0], st, roots);
      ProcessAllJustified(host, universe, seeds[1..], ProcessFile(host, universe, seeds[0], st), roots);
    }
  }

  /** `collectFromFiles`: clear the resolver cache, then process the supported seeds
      in order, sharing one `processed` set. The result is the final walk state; its
      `contexts` is the returned list and its `cache` the resolver's cache afterwards. */
  function CollectFromFiles(host: Host, universe: set<string>, files: seq<string>, cache: Cache): (r: Walk)
    requires Closed(host, universe)
    ensures forall x :: x in files && IsSupported(host, x) ==> x in r.processed
    ensures |files| > 0 && IsSupported(host, files[0]) && host.content(files[0]).Some? ==>
      |r.contexts| > 0 && r.contexts[0] == FileContext(files[0], host.content(files[0]).value, RelativePath(host.basePath, files[0]))
  {
    var seeds := SupportedSeeds(host, files);
    var start := Walk({}, [], ClearCache(cache));
    var r := ProcessAll(host, universe, seeds, start);
    if |files| > 0 && IsSupported(host, files[0]) && host.content(files[0]).Some? then
      assert seeds[0] == files[0];
      ProcessFileShape(host, universe, seeds[0], start);
      var first := ProcessFile(host, universe, seeds[0], start);
      assert r == ProcessAll(host, universe, seeds[1..], first);
      assert first.contexts <= r.contexts;
      r
    else
      r
  }

  /** The cache is cleared at the start of every call, so what a call returns does not
      depend on the answers earlier calls left behind. */
  lemma CollectFromFilesIgnoresCache(host: Host, universe: set<string>, files: seq<string>, cache1: Cache, cache2: Cache)
    requires Closed(host, universe)
    ensures CollectFromFiles(host, universe, files, cache1) == CollectFromFiles(host, universe, files, cache2)
  {
    assert ClearCache(cache1) == ClearCache(cache2);
  }

  /** What `collectFromFiles` guarantees: each context is a supported file's own text,
      at most once; every supported file it reached and could read is in the list; and
      every name parsed from a listed file was resolved, and an answer that names a
      supported file was visited, and is listed too unless its read failed. */
  lemma CollectFromFilesSound(host: Host, universe: set<string>, files: seq<string>, cache: Cache)
    requires Closed(host, universe)
    ensures var r := CollectFromFiles(host, universe, files, cache);
      && NoDuplicatePaths(r.contexts)
      && ContextsFaithful(host, r.contexts)
      && (forall i :: 0 <= i < |r.contexts| ==> IsSupported(host, r.contexts[i].path))
      && (forall x :: x in files && IsSupported(host, x) && host.content(x).Some? ==> x in PathsOf(r.contexts))
      && (forall p, k ::
           p in PathsOf(r.contexts) && host.psi(p).Some? && 0 <= k < |ParseImports(host.psi(p).value)| ==>
             var name := ParseImports(host.psi(p).value)[k].fqName;
             && name in r.cache
             && (r.cache[name].Some? && IsSupported(host, r.cache[name].value) ==> r.cache[name].value in r.processed))
      && (forall p :: p in r.processed && host.content(p).Some? ==> p in PathsOf(r.contexts))
      && (forall p, k ::
           p in PathsOf(r.contexts) && host.psi(p).Some? && 0 <= k < |ParseImports(host.psi(p).value)| ==>
             var name := ParseImports(host.psi(p).value)[k].fqName;
             r.cache[name].Some? && IsSupported(host, r.cache[name].value) && host.content(r.cache[name].value).Some? ==>
               r.cache[name].value in PathsOf(r.contexts))
  {
    var start := Walk({}, [], ClearCache(cache));
    ProcessAllKeeps(host, universe, SupportedSeeds(host, files), start);
    ClosedInList(host, CollectFromFiles(host, universe, files, cache));
  }

  /** Where every visited file that reads is listed, an answer that was visited and
      reads is listed. */
  lemma ClosedInList(host: Host, r: Walk)
    requires forall p :: p in r.processed && host.content(p).Some? ==> p in PathsOf(r.contexts)
    requires forall p, k ::
      p in PathsOf(r.contexts) && host.psi(p).Some? && 0 <= k < |ParseImports(host.psi(p).value)| ==>
        var name := ParseImports(host.psi(p).value)[k].fqName;
        && name in r.cache
        && (r.cache[name].Some? && IsSupported(host, r.cache[name].value) ==> r.cache[name].value in r.processed)
    ensures forall p, k ::
      p in PathsOf(r.contexts) && host.psi(p).Some? && 0 <= k < |ParseImports(host.psi(p).value)| ==>
        var name := ParseImports(host.psi(p).value)[k].fqName;
        r.cache[name].Some? && IsSupported(host, r.cache[name].value) && host.content(r.cache[name].value).Some? ==>
          r.cache[name].value in PathsOf(r.contexts)
  {
  }

  /** `collectFromFiles` collects nothing beyond the closure: every listed file is one
      of the selected files, or the resolver's answer for a name that a read and parsed
      file of the walk imports. */
  lemma CollectFromFilesMinimal(host: Host, universe: set<string>, files: seq<string>, cache: Cache)
    requires Closed(host, universe)
    ensures var r := CollectFromFiles(host, universe, files, cache);
      && PathsOf(r.contexts) <= r.processed
      && forall p :: p in r.processed ==>
           || p in files
           || exists n :: n in r.cache && r.cache[n] == Some(p) && exists q :: q in r.processed && Imports(host, q, n)
  {
    var start := Walk({}, [], ClearCache(cache));
    ProcessAllKeeps(host, universe, SupportedSeeds(host, files), start);
    ProcessAllJustified(host, universe, SupportedSeeds(host, files), start, files);
  }

  /** A virtual file below a source root: a directory with its `children`, where
      `listed` is false when the listing is null or throws; or a plain file. */
  datatype Entry = Dir(path: string, listed: bool, children: seq<Entry>) | File(path: string)

  /** The files `collectFromSourceRoot` looks at below `e`, in the order it meets
      them: the non-directory children of each valid directory it descends into,
      child by child, a subdirectory's files in the subdirectory's place. */
  ghost function Reached(host: Host, e: Entry): (found: seq<string>)
    decreases e, 0
  {
    if !host.facts(e.path).valid then []
    else match e
      case File(_) => []
      case Dir(_, listed, cs) => if listed then ReachedAmong(host, cs) else []
  }

  /** The files reached through one child: a directory's own reached files, or the
      child itself. */
  ghost function ReachedChild(host: Host, c: Entry): (found: seq<string>)
    decreases c, 1
  {
    match c
    case Dir(_, _, _) => Reached(host, c)
    case File(p) => [p]
  }

  /** The files reached below a list of children, child by child. */
  ghost function ReachedAmong(host: Host, cs: seq<Entry>): (found: seq<string>)
    decreases cs, 2
  {
    if |cs| == 0 then [] else ReachedChild(host, cs[0]) + ReachedAmong(host, cs[1..])
  }

  /** A file `collectFromSourceRoot` turns into a context: supported, and its read
      succeeds. */
  function Collectable(host: Host): (keep: string -> bool)
    ensures forall p :: keep(p) == (IsSupported(host, p) && host.content(p).Some?)
  {
    p => IsSupported(host, p) && host.content(p).Some?
  }

  /** The files among `ps` that become contexts, in order. */
  ghost function Collected(host: Host, ps: seq<string>): (kept: seq<string>)
  {
    Filter(Collectable(host), ps)
  }

  /** A single file is collected exactly when it is supported and reads. */
  lemma CollectedSingle(host: Host, p: string)
    ensures Collected(host, [p]) == if IsSupported(host, p) && host.content(p).Some? then [p] else []
  {
    assert [p][1..] == [];
  }

  /** `collectFromSourceRoot`: nothing for an invalid or missing entry, or one whose
      children cannot be listed; otherwise, child by child, recurse into directories
      and add each supported file that reads. */
  function FromSourceRoot(host: Host, e: Entry): (r: seq<FileContext>)
    ensures ContextsFaithful(host, r)
    ensures forall i :: 0 <= i < |r| ==> IsSupported(host, r[i].path)
    ensures forall p :: p in PathsOf(r) <==> p in Reached(host, e) && IsSupported(host, p) && host.content(p).Some?
    ensures PathList(r) == Collected(host, Reached(host, e))
    decreases e, 0
  {
    if !host.facts(e.path).valid then []
    else match e
      case File(_) => []
      case Dir(_, listed, cs) => if listed then FromChildren(host, cs) else []
  }

  /** One child of the loop: a directory is walked, a supported file that reads
      becomes a context, anything else contributes nothing. */
  function FromChild(host: Host, c: Entry): (r: seq<FileContext>)
    ensures ContextsFaithful(host, r)
    ensures forall i :: 0 <= i < |r| ==> IsSupported(host, r[i].path)
    ensures forall p :: p in PathsOf(r) <==> p in ReachedChild(host, c) && IsSupported(host, p) && host.content(p).Some?
    ensures PathList(r) == Collected(host, ReachedChild(host, c))
    decreases c, 1
  {
    match c
    case Dir(_, _, _) => FromSourceRoot(host, c)
    case File(p) => FromFile(host, p)
  }

  /** A non-directory child: its context when it is supported and reads, nothing
      otherwise (a failed read is caught and skipped). */
  function FromFile(host: Host, p: string): (r: seq<FileContext>)
    ensures |r| <= 1
    ensures ContextsFaithful(host, r)
    ensures forall i :: 0 <= i < |r| ==> r[i].path == p && IsSupported(host, p)
    ensures PathsOf(r) == if IsSupported(host, p) && host.content(p).Some? then {p} else {}
    ensures PathList(r) == Collected(host, [p])
  {
    CollectedSingle(host, p);
    if IsSupported(host, p) && host.content(p).Some? then
      var x := FileContext(p, host.content(p).value, RelativePath(host.basePath, p));
      PathsOfSingle(x);
      FaithfulSingle(host, x);
      [x]
    else
      assert PathsOf([]) == {};
      []
  }

  /** The `children?.forEach` loop of `collectFromSourceRoot`. */
  function FromChildren(host: Host, cs: seq<Entry>): (r: seq<FileContext>)
    ensures ContextsFaithful(host, r)
    ensures forall i :: 0 <= i < |r| ==> IsSupported(host, r[i].path)
    ensures forall p :: p in PathsOf(r) <==> p in ReachedAmong(host, cs) && IsSupported(host, p) && host.content(p).Some?
    ensures PathList(r) == Collected(host, ReachedAmong(host, cs))
    decreases cs, 2
  {
    if |cs| == 0 then []
    else
      var head := FromChild(host, cs[0]);
      var tail := FromChildren(host, cs[1..]);
      JoinContexts(host, head, tail);
      FilterConcat(Collectable(host), ReachedChild(host, cs[0]), ReachedAmong(host, cs[1..]));
      head + tail
  }

  /** Concatenation keeps both halves' contexts, and only those, in order. */
  lemma JoinContexts(host: Host, a: seq<FileContext>, b: seq<FileContext>)
    requires ContextsFaithful(host, a) && ContextsFaithful(host, b)
    requires forall i :: 0 <= i < |a| ==> IsSupported(host, a[i].path)
    requires forall i :: 0 <= i < |b| ==> IsSupported(host, b[i].path)
    ensures ContextsFaithful(host, a + b)
    ensures forall i :: 0 <= i < |a + b| ==> IsSupported(host, (a + b)[i].path)
    ensures PathsOf(a + b) == PathsOf(a) + PathsOf(b)
    ensures PathList(a + b) == PathList(a) + PathList(b)
  {
    AppendKeepsFaithfulAll(host, a, b);
    PathsOfConcat(a, b);
    PathListConcat(a, b);
    var ab := a + b;
    forall i | 0 <= i < |ab|
      ensures IsSupported(host, ab[i].path)
    {
      if i < |a| {
        assert ab[i] == a[i];
      } else {
        assert ab[i] == b[i - |a|];
      }
    }
  }

  /** The files reached from the source roots, root by root. */
  ghost function ReachedFromRoots(host: Host, roots: seq<Entry>): (found: seq<string>)
  {
    if |roots| == 0 then [] else Reached(host, roots[0]) + ReachedFromRoots(host, roots[1..])
  }

  /** `collectAllFiles`: each module's non-test source roots, module by module, each
      walked by `collectFromSourceRoot`; the lists are concatenated as they are. */
  function CollectAllFiles(host: Host, roots: seq<Entry>): (r: seq<FileContext>)
    ensures ContextsFaithful(host, r)
    ensures forall i :: 0 <= i < |r| ==> IsSupported(host, r[i].path)
    ensures forall p :: p in PathsOf(r) <==> p in ReachedFromRoots(host, roots) && IsSupported(host, p) && host.content(p).Some?
    ensures PathList(r) == Collected(host, ReachedFromRoots(host, roots))
  {
    if |roots| == 0 then []
    else
      var head := FromSourceRoot(host, roots[0]);
      var tail := CollectAllFiles(host, roots[1..]);
      JoinContexts(host, head, tail);
      FilterConcat(Collectable(host), Reached(host, roots[0]), ReachedFromRoots(host, roots[1..]));
      head + tail
  }
}
