/** `ContextCollector` of `core/ContextCollector.kt`: the same closure walk without
    exception handling, with support decided by the file extension alone, and with a
    resolver whose cache is never cleared. A failed read ends the whole call. */
module CoreCollector {
  import opened Wrappers
  import opened Files
  import opened Parser
  import opened Project
  import opened Resolver
  import opened Walks
  import Collector

  /** A read that threw: the file, and the resolver's cache as the exception left it
      (the resolver outlives the call). */
  datatype Failure = Failure(path: string, cache: Cache)

  /** `isSupported` of this variant: the extension test only. */
  predicate IsSupported(path: string) {
    IsSourceExtension(path)
  }

  /** `processFile` without a `try`: as in the main collector, except that a read
      failure is not caught and aborts everything above it. */
  function ProcessFile(host: Host, universe: set<string>, f: string, st: Walk): (r: Result<Walk, Failure>)
    requires Closed(host, universe) && CacheWithin(st.cache, universe)
    ensures r.Ok? ==> Grows(st, r.value) && CacheWithin(r.value.cache, universe)
    ensures r.Err? ==> host.content(r.error.path).None? && CacheGrows(st.cache, r.error.cache) && CacheWithin(r.error.cache, universe)
    ensures r.Ok? && IsSupported(f) ==> f in r.value.processed
    decreases |universe - st.processed|, if f in universe then 1 else 3
  {
    if f in st.processed || !IsSupported(f) then
      Ok(st)
    else
      match host.content(f)
      case None => Err(Failure(f, st.cache))
      case Some(text) =>
        var added := Walk(st.processed + {f}, st.contexts + [FileContext(f, text, RelativePath(host.basePath, f))], st.cache);
        AppendGrows(st, f, FileContext(f, text, RelativePath(host.basePath, f)));
        VisitShrinks(universe, st.processed, f);
        match host.psi(f)
        case None => Ok(added)
        case Some(parsed) =>
          var r := FollowRefs(host, universe, f, ParseImports(parsed), 0, added);
          if r.Ok? then
            GrowsTransitive(st, added, r.value);
            r
          else
            r
  }

  /** The import loop of this variant; the first failure is passed up unchanged. */
  function FollowRefs(host: Host, universe: set<string>, contextFile: string, refs: seq<ImportInfo>, i: nat, st: Walk): (r: Result<Walk, Failure>)
    requires Closed(host, universe) && CacheWithin(st.cache, universe)
    requires i <= |refs|
    ensures r.Ok? ==> Grows(st, r.value) && CacheWithin(r.value.cache, universe)
    ensures r.Err? ==> host.content(r.error.path).None? && CacheGrows(st.cache, r.error.cache) && CacheWithin(r.error.cache, universe)
    decreases |universe - st.processed|, 2, |refs| - i
  {
    if i == |refs| then
      Ok(st)
    else
      match FollowName(host, universe, contextFile, refs[i].fqName, st)
      case Err(e) => Err(e)
      case Ok(next) =>
        UnvisitedShrinks(universe, st.processed, next.processed);
        var r := FollowRefs(host, universe, contextFile, refs, i + 1, next);
        if r.Ok? then
          GrowsTransitive(st, next, r.value);
          r
        else
          r
  }

  /** One pass of the loop: resolve, then process the answer, if any. On success the
      name is in the cache. */
  function FollowName(host: Host, universe: set<string>, contextFile: string, name: string, st: Walk): (r: Result<Walk, Failure>)
    requires Closed(host, universe) && CacheWithin(st.cache, universe)
    ensures r.Ok? ==> Grows(st, r.value) && CacheWithin(r.value.cache, universe) && name in r.value.cache
    ensures r.Err? ==> host.content(r.error.path).None? && CacheGrows(st.cache, r.error.cache) && CacheWithin(r.error.cache, universe)
    decreases |universe - st.processed|, 2, 0
  {
    var res := Resolve(host, st.cache, name, contextFile);
    ResolveWithin(host, st.cache, name, contextFile, universe);
    ResolveGrowsCache(host, st.cache, name, contextFile);
    var resolved := st.(cache := res.1);
    if res.0.Some? then
      var r := ProcessFile(host, universe, res.0.value, resolved);
      if r.Ok? then
        GrowsTransitive(st, resolved, r.value);
        r
      else
        r
    else
      Ok(resolved)
  }

  /** What one `processFile` call of this variant does: a processed file, or one
      without a source extension, changes nothing; an unprocessed source file whose
      read throws fails the call with its path and the cache as it was; on success a
      newly processed file has its own context next in the list. */
  lemma ProcessFileShape(host: Host, universe: set<string>, f: string, st: Walk)
    requires Closed(host, universe) && CacheWithin(st.cache, universe)
    ensures var r := ProcessFile(host, universe, f, st);
      && (f in st.processed || !IsSupported(f) ==> r == Ok(st))
      && (f !in st.processed && IsSupported(f) && host.content(f).None? ==> r == Err(Failure(f, st.cache)))
      && (r.Ok? && f !in st.processed && IsSupported(f) ==>
            |r.value.contexts| > |st.contexts| &&
            r.value.contexts[|st.contexts|] == FileContext(f, host.content(f).value, RelativePath(host.basePath, f)))
  {
    var r := ProcessFile(host, universe, f, st);
    if r.Ok? && f !in st.processed && IsSupported(f) {
      var c := FileContext(f, host.content(f).value, RelativePath(host.basePath, f));
      var added := Walk(st.processed + {f}, st.contexts + [c], st.cache);
      assert added.contexts <= r.value.contexts;
      assert r.value.contexts[|st.contexts|] == added.contexts[|st.contexts|];
    }
  }

  /** After a successful import loop, every name from position `i` on sits in the
      resolver's cache. */
  lemma {:induction false} FollowRefsCaches(host: Host, universe: set<string>, contextFile: string, refs: seq<ImportInfo>, i: nat, st: Walk)
    requires Closed(host, universe) && CacheWithin(st.cache, universe)
    requires i <= |refs|
    ensures var r := FollowRefs(host, universe, contextFile, refs, i, st);
      r.Ok? ==> forall k :: i <= k < |refs| ==> refs[k].fqName in r.value.cache
    decreases |refs| - i
  {
    if i < |refs| {
      var next := FollowName(host, universe, contextFile, refs[i].fqName, st);
      if next.Ok? {
        FollowRefsCaches(host, universe, contextFile, refs, i + 1, next.value);
      }
    }
  }

  /** What holds of this variant's state between steps: every processed file has a
      context and every context a processed file, once each, faithfully; processed
      files have a source extension. */
  ghost predicate Valid(host: Host, st: Walk) {
    && PathsOf(st.contexts) == st.processed
    && NoDuplicatePaths(st.contexts)
    && ContextsFaithful(host, st.contexts)
    && (forall p :: p in st.processed ==> IsSupported(p))
  }

  /** Marking a file processed and appending its context keeps the state valid. */
  lemma AppendStep(host: Host, f: string, st: Walk, text: string)
    requires Valid(host, st)
    requires f !in st.processed && IsSupported(f) && host.content(f) == Some(text)
    ensures Valid(host, Walk(st.processed + {f}, st.contexts + [FileContext(f, text, RelativePath(host.basePath, f))], st.cache))
  {
    var c := FileContext(f, text, RelativePath(host.basePath, f));
    PathsOfAppend(st.contexts, c);
    AppendKeepsDistinct(st.contexts, c, st.processed);
    AppendKeepsFaithful(host, st.contexts, c);
  }

  /** A successful `processFile` keeps the state valid. */
  lemma {:induction false} ProcessFileKeepsValid(host: Host, universe: set<string>, f: string, st: Walk)
    requires Closed(host, universe) && CacheWithin(st.cache, universe)
    requires Valid(host, st)
    ensures ProcessFile(host, universe, f, st).Ok? ==> Valid(host, ProcessFile(host, universe, f, st).value)
    decreases |universe - st.processed|, if f in universe then 1 else 3
  {
    if f !in st.processed && IsSupported(f) {
      match host.content(f)
      case None =>
      case Some(text) =>
        var added := Walk(st.processed + {f}, st.contexts + [FileContext(f, text, RelativePath(host.basePath, f))], st.cache);
        AppendStep(host, f, st, text);
        VisitShrinks(universe, st.processed, f);
        match host.psi(f)
        case None =>
        case Some(parsed) =>
          FollowRefsKeepsValid(host, universe, f, ParseImports(parsed), 0, added);
    }
  }

  /** A successful import loop keeps the state valid. */
  lemma {:induction false} FollowRefsKeepsValid(host: Host, universe: set<string>, contextFile: string, refs: seq<ImportInfo>, i: nat, st: Walk)
    requires Closed(host, universe) && CacheWithin(st.cache, universe)
    requires i <= |refs|
    requires Valid(host, st)
    ensures FollowRefs(host, universe, contextFile, refs, i, st).Ok? ==> Valid(host, FollowRefs(host, universe, contextFile, refs, i, st).value)
    decreases |universe - st.processed|, 2, |refs| - i
  {
    if i < |refs| {
      FollowNameKeepsValid(host, universe, contextFile, refs[i].fqName, st);
      var next := FollowName(host, universe, contextFile, refs[i].fqName, st);
      if next.Ok? {
        UnvisitedShrinks(universe, st.processed, next.value.processed);
        FollowRefsKeepsValid(host, universe, contextFile, refs, i + 1, next.value);
      }
    }
  }

  /** A successful pass of the import loop keeps the state valid. */
  lemma {:induction false} FollowNameKeepsValid(host: Host, universe: set<string>, contextFile: string, name: string, st: Walk)
    requires Closed(host, universe) && CacheWithin(st.cache, universe)
    requires Valid(host, st)
    ensures FollowName(host, universe, contextFile, name, st).Ok? ==> Valid(host, FollowName(host, universe, contextFile, name, st).value)
    decreases |universe - st.processed|, 2, 0
  {
    var res := Resolve(host, st.cache, name, contextFile);
    ResolveWithin(host, st.cache, name, contextFile, universe);
    if res.0.Some? {
      ProcessFileKeepsValid(host, universe, res.0.value, st.(cache := res.1));
    }
  }

  /** A successful `processFile` of a root, or of a reached file, visits nothing it
      was not led to. */
  lemma {:induction false} ProcessFileJustified(host: Host, universe: set<string>, f: string, st: Walk, roots: seq<string>)
    requires Closed(host, universe) && CacheWithin(st.cache, universe)
    requires Justified(host, st, roots)
    requires f in roots || Answered(host, st, f)
    ensures ProcessFile(host, universe, f, st).Ok? ==> Justified(host, ProcessFile(host, universe, f, st).value, roots)
    decreases |universe - st.processed|, if f in universe then 1 else 3
  {
    if f !in st.processed && IsSupported(f) {
      match host.content(f)
      case None =>
      case Some(text) =>
        var c := FileContext(f, text, RelativePath(host.basePath, f));
        var added := Walk(st.processed + {f}, st.contexts + [c], st.cache);
        AppendGrows(st, f, c);
        JustifiedGrows(host, st, added, roots, f);
        VisitShrinks(universe, st.processed, f);
        match host.psi(f)
        case None =>
        case Some(parsed) =>
          FollowRefsJustified(host, universe, f, ParseImports(parsed), 0, added, roots);
    }
  }

  /** A successful import loop of a processed, parsed file visits nothing it was not
      led to. */
  lemma {:induction false} FollowRefsJustified(host: Host, universe: set<string>, contextFile: string, refs: seq<ImportInfo>, i: nat, st: Walk, roots: seq<string>)
    requires Closed(host, universe) && CacheWithin(st.cache, universe)
    requires i <= |refs|
    requires Justified(host, st, roots)
    requires ImportListOf(host, st.processed, contextFile, refs)
    ensures FollowRefs(host, universe, contextFile, refs, i, st).Ok? ==> Justified(host, FollowRefs(host, universe, contextFile, refs, i, st).value, roots)
    decreases |universe - st.processed|, 2, |refs| - i
  {
    if i < |refs| {
      var next := FollowName(host, universe, contextFile, refs[i].fqName, st);
      ImportListStep(host, st.processed, st.processed, contextFile, refs, i);
      FollowNameJustified(host, universe, contextFile, refs[i].fqName, st, roots);
      if next.Ok? {
        ImportListStep(host, st.processed, next.value.processed, contextFile, refs, i);
        UnvisitedShrinks(universe, st.processed, next.value.processed);
        FollowRefsJustified(host, universe, contextFile, refs, i + 1, next.value, roots);
        assert FollowRefs(host, universe, contextFile, refs, i, st) == FollowRefs(host, universe, contextFile, refs, i + 1, next.value);
      }
    }
  }

  /** A successful pass for a name that a processed file imports visits nothing it
      was not led to. */
  lemma {:induction false} FollowNameJustified(host: Host, universe: set<string>, contextFile: string, name: string, st: Walk, roots: seq<string>)
    requires Closed(host, universe) && CacheWithin(st.cache, universe)
    requires Justified(host, st, roots)
    requires contextFile in st.processed && Imports(host, contextFile, name)
    ensures FollowName(host, universe, contextFile, name, st).Ok? ==> Justified(host, FollowName(host, universe, contextFile, name, st).value, roots)
    decreases |universe - st.processed|, 2, 0
  {
    var res := Resolve(host, st.cache, name, contextFile);
    ResolveWithin(host, st.cache, name, contextFile, universe);
    ResolveGrowsCache(host, st.cache, name, contextFile);
    var resolved := st.(cache := res.1);
    JustifiedGrows(host, st, resolved, roots, contextFile);
    if res.0.Some? {
      ResolveReaches(host, st, contextFile, name);
      ProcessFileJustified(host, universe, res.0.value, resolved, roots);
    }
  }

  /** `n` is in the cache, and the file its answer names, when that file has a source
      extension, has been visited or is `pending`, the file about to be processed. */
  ghost predicate Followed(st: Walk, n: string, pending: Option<string>) {
    && n in st.cache
    && (st.cache[n].Some? && IsSupported(st.cache[n].value) ==>
          st.cache[n].value in st.processed || pending == st.cache[n])
  }

  /** The closure so far: every name in `names`, and every name that a processed,
      read and parsed file outside `exempt` imports, has been followed. Unlike the main
      collector's, this cannot speak of the whole cache: entries left by earlier calls
      that no file of this call imports need not have been visited. */
  ghost predicate Closure(host: Host, st: Walk, exempt: set<string>, names: set<string>, pending: Option<string>) {
    && (forall n :: n in names ==> Followed(st, n, pending))
    && (forall p, n :: p in st.processed && p !in exempt && Imports(host, p, n) ==> Followed(st, n, pending))
  }

  /** The names of `refs` from position `i` on. */
  ghost function NamesFrom(refs: seq<ImportInfo>, i: nat): (names: set<string>)
    ensures forall k :: i <= k < |refs| ==> refs[k].fqName in names
    ensures forall n :: n in names ==> exists k :: i <= k < |refs| && refs[k].fqName == n
  {
    set k | i <= k < |refs| :: refs[k].fqName
  }

  /** The names from `i` on are the name at `i` and those after it. */
  lemma NamesFromStep(refs: seq<ImportInfo>, i: nat)
    requires i < |refs|
    ensures NamesFrom(refs, i) == {refs[i].fqName} + NamesFrom(refs, i + 1)
  {
  }

  /** Marking `f` processed discharges it as pending; it stays exempt until its own
      names have been followed. */
  lemma CloseAppend(host: Host, st: Walk, after: Walk, f: string, exempt: set<string>, names: set<string>)
    requires Closure(host, st, exempt, names, Some(f))
    requires after.processed == st.processed + {f} && after.cache == st.cache
    ensures Closure(host, after, exempt + {f}, names, None)
  {
  }

  /** A file with no import list needs no exemption. */
  lemma CloseWithoutNames(host: Host, st: Walk, f: string, exempt: set<string>, names: set<string>)
    requires Closure(host, st, exempt + {f}, names, None)
    requires host.psi(f).None?
    ensures Closure(host, st, exempt, names, None)
  {
  }

  /** Once all of `f`'s names have been followed, `f` need not be exempt. */
  lemma CloseDischarge(host: Host, st: Walk, f: string, exempt: set<string>, names: set<string>)
    requires host.psi(f).Some?
    requires Closure(host, st, exempt + {f}, names + NamesFrom(ParseImports(host.psi(f).value), 0), None)
    ensures Closure(host, st, exempt, names, None)
  {
    var refs := ParseImports(host.psi(f).value);
    forall n | f in st.processed && f !in exempt && Imports(host, f, n)
      ensures Followed(st, n, None)
    {
      var k :| 0 <= k < |refs| && refs[k].fqName == n;
      assert n in NamesFrom(refs, 0);
    }
  }

  /** A file already visited, or one without a source extension, has nothing pending. */
  lemma CloseSkip(host: Host, st: Walk, f: string, exempt: set<string>, names: set<string>)
    requires Closure(host, st, exempt, names, Some(f))
    requires f in st.processed || !IsSupported(f)
    ensures Closure(host, st, exempt, names, None)
  {
  }

  /** Nothing pending is a stronger state than anything pending. */
  lemma ClosePend(host: Host, st: Walk, f: string, exempt: set<string>, names: set<string>)
    requires Closure(host, st, exempt, names, None)
    ensures Closure(host, st, exempt, names, Some(f))
  {
  }

  /** Resolving `name` follows it, with its answer, if any, pending; every name
      followed before stays followed with that answer pending. */
  lemma CloseResolve(host: Host, st: Walk, contextFile: string, name: string, exempt: set<string>, names: set<string>)
    requires Closure(host, st, exempt, names, None)
    ensures var res := Resolve(host, st.cache, name, contextFile);
      Closure(host, st.(cache := res.1), exempt, names + {name}, res.0)
  {
    var res := Resolve(host, st.cache, name, contextFile);
    var after := st.(cache := res.1);
    forall n | Followed(st, n, None)
      ensures Followed(after, n, res.0)
    {
    }
    assert Followed(after, name, res.0);
  }

  /** A successful `processFile` keeps the closure and discharges the pending file. */
  lemma {:induction false} ProcessFileCloses(host: Host, universe: set<string>, f: string, st: Walk, exempt: set<string>, names: set<string>)
    requires Closed(host, universe) && CacheWithin(st.cache, universe)
    requires Closure(host, st, exempt, names, Some(f))
    ensures ProcessFile(host, universe, f, st).Ok? ==> Closure(host, ProcessFile(host, universe, f, st).value, exempt, names, None)
    decreases |universe - st.processed|, if f in universe then 1 else 3
  {
    if f in st.processed || !IsSupported(f) {
      CloseSkip(host, st, f, exempt, names);
    } else {
      match host.content(f)
      case None =>
      case Some(text) =>
        var c := FileContext(f, text, RelativePath(host.basePath, f));
        var added := Walk(st.processed + {f}, st.contexts + [c], st.cache);
        CloseAppend(host, st, added, f, exempt, names);
        VisitShrinks(universe, st.processed, f);
        match host.psi(f)
        case None =>
          CloseWithoutNames(host, added, f, exempt, names);
        case Some(parsed) =>
          var refs := ParseImports(parsed);
          FollowRefsCloses(host, universe, f, refs, 0, added, exempt + {f}, names);
          var r := FollowRefs(host, universe, f, refs, 0, added);
          if r.Ok? {
            CloseDischarge(host, r.value, f, exempt, names);
          }
    }
  }

  /** A successful import loop from position `i` follows the names from `i` on and
      keeps the closure. */
  lemma {:induction false} FollowRefsCloses(host: Host, universe: set<string>, contextFile: string, refs: seq<ImportInfo>, i: nat, st: Walk, exempt: set<string>, names: set<string>)
    requires Closed(host, universe) && CacheWithin(st.cache, universe)
    requires i <= |refs|
    requires Closure(host, st, exempt, names, None)
    ensures FollowRefs(host, universe, contextFile, refs, i, st).Ok? ==>
      Closure(host, FollowRefs(host, universe, contextFile, refs, i, st).value, exempt, names + NamesFrom(refs, i), None)
    decreases |universe - st.processed|, 2, |refs| - i
  {
    if i == |refs| {
      assert names + NamesFrom(refs, i) == names;
    } else {
      var name := refs[i].fqName;
      var next := FollowName(host, universe, contextFile, name, st);
      FollowNameCloses(host, universe, contextFile, name, st, exempt, names);
      if next.Ok? {
        UnvisitedShrinks(universe, st.processed, next.value.processed);
        NamesFromStep(refs, i);
        FollowRefsCloses(host, universe, contextFile, refs, i + 1, next.value, exempt, names + {name});
      }
    }
  }

  /** A successful pass follows its name and keeps the closure. */
  lemma {:induction false} FollowNameCloses(host: Host, universe: set<string>, contextFile: string, name: string, st: Walk, exempt: set<string>, names: set<string>)
    requires Closed(host, universe) && CacheWithin(st.cache, universe)
    requires Closure(host, st, exempt, names, None)
    ensures FollowName(host, universe, contextFile, name, st).Ok? ==>
      Closure(host, FollowName(host, universe, contextFile, name, st).value, exempt, names + {name}, None)
    decreases |universe - st.processed|, 2, 0
  {
    var res := Resolve(host, st.cache, name, contextFile);
    ResolveWithin(host, st.cache, name, contextFile, universe);
    CloseResolve(host, st, contextFile, name, exempt, names);
    if res.0.Some? {
      ProcessFileCloses(host, universe, res.0.value, st.(cache := res.1), exempt, names + {name});
    }
  }

  /** Where every source file is official project source and every read succeeds,
      the two variants take the same walk. */
  ghost predicate Benign(host: Host) {
    forall p :: IsSupported(p) ==> Collector.IsSupported(host, p) && host.content(p).Some?
  }

  /** On a benign host, this variant's `processFile` succeeds with the main
      collector's state. */
  lemma {:induction false} ProcessFileAgrees(host: Host, universe: set<string>, f: string, st: Walk)
    requires Closed(host, universe) && CacheWithin(st.cache, universe) && Benign(host)
    ensures ProcessFile(host, universe, f, st) == Ok(Collector.ProcessFile(host, universe, f, st))
    decreases |universe - st.processed|, if f in universe then 1 else 3
  {
    assert IsSupported(f) <==> Collector.IsSupported(host, f);
    if f !in st.processed && IsSupported(f) {
      var text := host.content(f).value;
      var added := Walk(st.processed + {f}, st.contexts + [FileContext(f, text, RelativePath(host.basePath, f))], st.cache);
      VisitShrinks(universe, st.processed, f);
      match host.psi(f)
      case None =>
      case Some(parsed) =>
        FollowRefsAgrees(host, universe, f, ParseImports(parsed), 0, added);
    }
  }

  /** On a benign host, this variant's import loop succeeds with the main
      collector's state. */
  lemma {:induction false} FollowRefsAgrees(host: Host, universe: set<string>, contextFile: string, refs: seq<ImportInfo>, i: nat, st: Walk)
    requires Closed(host, universe) && CacheWithin(st.cache, universe) && Benign(host)
    requires i <= |refs|
    ensures FollowRefs(host, universe, contextFile, refs, i, st) == Ok(Collector.FollowRefs(host, universe, contextFile, refs, i, st))
    decreases |universe - st.processed|, 2, |refs| - i
  {
    if i < |refs| {
      FollowNameAgrees(host, universe, contextFile, refs[i].fqName, st);
      var next := Collector.FollowName(host, universe, contextFile, refs[i].fqName, st);
      UnvisitedShrinks(universe, st.processed, next.processed);
      FollowRefsAgrees(host, universe, contextFile, refs, i + 1, next);
    }
  }

  /** On a benign host, one pass of the import loop agrees with the main collector's. */
  lemma {:induction false} FollowNameAgrees(host: Host, universe: set<string>, contextFile: string, name: string, st: Walk)
    requires Closed(host, universe) && CacheWithin(st.cache, universe) && Benign(host)
    ensures FollowName(host, universe, contextFile, name, st) == Ok(Collector.FollowName(host, universe, contextFile, name, st))
    decreases |universe - st.processed|, 2, 0
  {
    var res := Resolve(host, st.cache, name, contextFile);
    ResolveWithin(host, st.cache, name, contextFile, universe);
    if res.0.Some? {
      ProcessFileAgrees(host, universe, res.0.value, st.(cache := res.1));
    }
  }

  /** The seeds: `files.filter { isSupported(it) }`. */
  function SupportedSeeds(files: seq<string>): (seeds: seq<string>)
    ensures forall x :: x in seeds <==> x in files && IsSupported(x)
  {
    if |files| == 0 then []
    else (if IsSupported(files[0]) then [files[0]] else []) + SupportedSeeds(files[1..])
  }

  /** The seeds are `files` with the files lacking a source extension left out: the
      rest keep their order, and each kept file appears as many times as it is
      listed. */
  lemma SupportedSeedsFilter(files: seq<string>)
    ensures IsSubsequence(SupportedSeeds(files), files)
    ensures forall x :: multiset(SupportedSeeds(files))[x] == if IsSupported(x) then multiset(files)[x] else 0
  {
    SupportedSeedsInOrder(files);
    forall x {
      SupportedSeedsCount(files, x);
    }
  }

  /** The seeds keep the order of the selection. */
  lemma {:induction false} SupportedSeedsInOrder(files: seq<string>)
    ensures IsSubsequence(SupportedSeeds(files), files)
  {
    if |files| > 0 {
      var rest := SupportedSeeds(files[1..]);
      SupportedSeedsInOrder(files[1..]);
      if IsSupported(files[0]) {
        assert SupportedSeeds(files) == [files[0]] + rest;
        assert SupportedSeeds(files)[1..] == rest;
      } else {
        assert SupportedSeeds(files) == rest;
      }
    }
  }

  /** A file occurs among the seeds as often as it was selected when it is kept, and
      never otherwise. */
  lemma {:induction false} SupportedSeedsCount(files: seq<string>, x: string)
    ensures multiset(SupportedSeeds(files))[x] == if IsSupported(x) then multiset(files)[x] else 0
  {
    SupportedSeedsAreFilter(files);
    FilterCount(IsSupported, files, x);
  }

  /** The seeds are the selection filtered by `isSupported`. */
  lemma {:induction false} SupportedSeedsAreFilter(files: seq<string>)
    ensures SupportedSeeds(files) == Filter(IsSupported, files)
  {
    if |files| > 0 {
      SupportedSeedsAreFilter(files[1..]);
    }
  }

  /** `forEach { processFile(...) }`, stopping at the first failure. */
  function ProcessAll(host: Host, universe: set<string>, seeds: seq<string>, st: Walk): (r: Result<Walk, Failure>)
    requires Closed(host, universe) && CacheWithin(st.cache, universe)
    ensures r.Ok? ==> Grows(st, r.value) && CacheWithin(r.value.cache, universe)
    ensures r.Ok? ==> forall x :: x in seeds && IsSupported(x) ==> x in r.value.processed
    ensures r.Err? ==> host.content(r.error.path).None? && CacheGrows(st.cache, r.error.cache)
    decreases |seeds|
  {
    if |seeds| == 0 then Ok(st)
    else
      match ProcessFile(host, universe, seeds[0], st)
      case Err(e) => Err(e)
      case Ok(next) =>
        var r := ProcessAll(host, universe, seeds[1..], next);
        if r.Ok? then
          GrowsTransitive(st, next, r.value);
          assert forall x :: x in seeds ==> x == seeds[0] || x in seeds[1..];
          r
        else
          r
  }

  /** `collectFromFiles` of this variant: the resolver cache is kept from earlier
      calls, and the call either returns the final state or fails on the first file
      whose read throws. */
  function CollectFromFiles(host: Host, universe: set<string>, files: seq<string>, cache: Cache): (r: Result<Walk, Failure>)
    requires Closed(host, universe) && CacheWithin(cache, universe)
    ensures r.Ok? ==> forall x :: x in files && IsSupported(x) ==> x in r.value.processed
    ensures r.Ok? ==> CacheGrows(cache, r.value.cache)
    ensures r.Err? ==> host.content(r.error.path).None? && CacheGrows(cache, r.error.cache)
  {
    ProcessAll(host, universe, SupportedSeeds(files), Walk({}, [], cache))
  }

  /** Processing the seeds keeps the state valid. */
  lemma {:induction false} ProcessAllKeepsValid(host: Host, universe: set<string>, seeds: seq<string>, st: Walk)
    requires Closed(host, universe) && CacheWithin(st.cache, universe) && Valid(host, st)
    ensures ProcessAll(host, universe, seeds, st).Ok? ==> Valid(host, ProcessAll(host, universe, seeds, st).value)
    decreases |seeds|
  {
    if |seeds| > 0 {
      ProcessFileKeepsValid(host, universe, seeds[0], st);
      var next := ProcessFile(host, universe, seeds[0], st);
      if next.Ok? {
        ProcessAllKeepsValid(host, universe, seeds[1..], next.value);
      }
    }
  }

  /** On success, the contexts are exactly the processed files, each once and with its
      own text, and every seed with a Java or Kotlin extension is among them. Unlike
      the main collector, no file is processed without a context. */
  lemma CollectFromFilesSound(host: Host, universe: set<string>, files: seq<string>, cache: Cache)
    requires Closed(host, universe) && CacheWithin(cache, universe)
    ensures var r := CollectFromFiles(host, universe, files, cache);
      r.Ok? ==>
        && PathsOf(r.value.contexts) == r.value.processed
        && NoDuplicatePaths(r.value.contexts)
        && ContextsFaithful(host, r.value.contexts)
        && (forall x :: x in files && IsSupported(x) ==> x in PathsOf(r.value.contexts))
  {
    ProcessAllKeepsValid(host, universe, SupportedSeeds(files), Walk({}, [], cache));
  }

  /** A seed with a source extension whose read throws makes the whole call fail. */
  lemma UnreadableSeedFails(host: Host, universe: set<string>, files: seq<string>, cache: Cache, x: string)
    requires Closed(host, universe) && CacheWithin(cache, universe)
    requires x in files && IsSupported(x) && host.content(x).None?
    ensures CollectFromFiles(host, universe, files, cache).Err?
  {
    CollectFromFilesSound(host, universe, files, cache);
  }

  /** Processing seeds drawn from `roots` keeps every visited file justified. */
  lemma {:induction false} ProcessAllJustified(host: Host, universe: set<string>, seeds: seq<string>, st: Walk, roots: seq<string>)
    requires Closed(host, universe) && CacheWithin(st.cache, universe)
    requires Justified(host, st, roots)
    requires forall x :: x in seeds ==> x in roots
    ensures ProcessAll(host, universe, seeds, st).Ok? ==> Justified(host, ProcessAll(host, universe, seeds, st).value, roots)
    decreases |seeds|
  {
    if |seeds| > 0 {
      ProcessFileJustified(host, universe, seeds[0], st, roots);
      var next := ProcessFile(host, universe, seeds[0], st);
      if next.Ok? {
        ProcessAllJustified(host, universe, seeds[1..], next.value, roots);
      }
    }
  }

  /** A successful `collectFromFiles` of this variant collects nothing beyond the
      closure: every listed file is one of the given files, or the resolver's answer
      for a name that a read and parsed file of the walk imports. */
  lemma CollectFromFilesMinimal(host: Host, universe: set<string>, files: seq<string>, cache: Cache)
    requires Closed(host, universe) && CacheWithin(cache, universe)
    ensures var r := CollectFromFiles(host, universe, files, cache);
      r.Ok? ==>
        && PathsOf(r.value.contexts) == r.value.processed
        && forall p :: p in r.value.processed ==>
             || p in files
             || exists n :: n in r.value.cache && r.value.cache[n] == Some(p) && exists q :: q in r.value.processed && Imports(host, q, n)
  {
    var start := Walk({}, [], cache);
    ProcessAllKeepsValid(host, universe, SupportedSeeds(files), start);
    ProcessAllJustified(host, universe, SupportedSeeds(files), start, files);
  }

  /** Processing the seeds, each step on a closed state, keeps the closure. */
  lemma {:induction false} ProcessAllCloses(host: Host, universe: set<string>, seeds: seq<string>, st: Walk)
    requires Closed(host, universe) && CacheWithin(st.cache, universe)
    requires Closure(host, st, {}, {}, None)
    ensures ProcessAll(host, universe, seeds, st).Ok? ==> Closure(host, ProcessAll(host, universe, seeds, st).value, {}, {}, None)
    decreases |seeds|
  {
    if |seeds| > 0 {
      ClosePend(host, st, seeds[0], {}, {});
      ProcessFileCloses(host, universe, seeds[0], st, {}, {});
      var next := ProcessFile(host, universe, seeds[0], st);
      if next.Ok? {
        ProcessAllCloses(host, universe, seeds[1..], next.value);
      }
    }
  }

  /** A successful `collectFromFiles` of this variant is closed under imports: every
      name parsed from a listed file is in the cache, and an answer with a Java or
      Kotlin extension is listed too. Cache entries from earlier calls that no listed
      file imports are not constrained. */
  lemma CollectFromFilesClosed(host: Host, universe: set<string>, files: seq<string>, cache: Cache)
    requires Closed(host, universe) && CacheWithin(cache, universe)
    ensures var r := CollectFromFiles(host, universe, files, cache);
      r.Ok? ==> forall p, k ::
        p in PathsOf(r.value.contexts) && host.psi(p).Some? && 0 <= k < |ParseImports(host.psi(p).value)| ==>
          var name := ParseImports(host.psi(p).value)[k].fqName;
          && name in r.value.cache
          && (r.value.cache[name].Some? && IsSupported(r.value.cache[name].value) ==> r.value.cache[name].value in PathsOf(r.value.contexts))
  {
    var start := Walk({}, [], cache);
    ProcessAllKeepsValid(host, universe, SupportedSeeds(files), start);
    ProcessAllCloses(host, universe, SupportedSeeds(files), start);
    var r := CollectFromFiles(host, universe, files, cache);
    if r.Ok? {
      forall p, k | p in PathsOf(r.value.contexts) && host.psi(p).Some? && 0 <= k < |ParseImports(host.psi(p).value)|
        ensures Followed(r.value, ParseImports(host.psi(p).value)[k].fqName, None)
      {
        var i :| 0 <= i < |r.value.contexts| && r.value.contexts[i].path == p;
        assert host.content(p).Some?;
        assert Imports(host, p, ParseImports(host.psi(p).value)[k].fqName);
      }
    }
  }

  /** `collectAllFiles` of this variant: every Java file, then every Kotlin file, of
      the project scope, read without a `try`; the first unreadable file fails the
      call. */
  function CollectAllFiles(host: Host, javaFiles: seq<string>, kotlinFiles: seq<string>): (r: Result<seq<FileContext>, string>)
    ensures r.Ok? ==> |r.value| == |javaFiles| + |kotlinFiles|
    ensures r.Ok? ==> forall i :: 0 <= i < |r.value| ==>
      && r.value[i].path == (javaFiles + kotlinFiles)[i]
      && host.content(r.value[i].path) == Some(r.value[i].content)
      && r.value[i].relativePath == RelativePath(host.basePath, r.value[i].path)
    ensures r.Ok? <==> forall p :: p in javaFiles + kotlinFiles ==> host.content(p).Some?
    ensures r.Err? ==> r.error in javaFiles + kotlinFiles && host.content(r.error).None?
  {
    ReadAll(host, javaFiles + kotlinFiles)
  }

  /** Reads each file in order into a context; the first read that throws ends it. */
  function ReadAll(host: Host, files: seq<string>): (r: Result<seq<FileContext>, string>)
    ensures r.Ok? ==> |r.value| == |files|
    ensures r.Ok? ==> forall i :: 0 <= i < |files| ==>
      && r.value[i].path == files[i]
      && host.content(files[i]) == Some(r.value[i].content)
      && r.value[i].relativePath == RelativePath(host.basePath, files[i])
    ensures r.Ok? <==> forall p :: p in files ==> host.content(p).Some?
    ensures r.Err? ==> r.error in files && host.content(r.error).None?
  {
    if |files| == 0 then Ok([])
    else
      match host.content(files[0])
      case None => Err(files[0])
      case Some(text) =>
        match ReadAll(host, files[1..])
        case Err(p) => Err(p)
        case Ok(rest) =>
          assert forall p :: p in files ==> p == files[0] || p in files[1..];
          Ok([FileContext(files[0], text, RelativePath(host.basePath, files[0]))] + rest)
  }
}
