/** Facts about walk states shared by both collectors: the state a depth-first
    collection threads through, the set of paths its contexts cover, and the
    cardinality facts its termination argument needs. */
module Walks {
  import opened Wrappers
  import opened Files
  import opened Project
  import opened Resolver
  import opened Parser

  /** The mutable state of one `collectFromFiles` call: the `processed` set, the
      append-only `contexts` list, and the resolver's cache. */
  datatype Walk = Walk(processed: set<string>, contexts: seq<FileContext>, cache: Cache)

  /** The paths the contexts cover. */
  function PathsOf(cs: seq<FileContext>): (paths: set<string>)
    ensures forall i :: 0 <= i < |cs| ==> cs[i].path in paths
    ensures forall p :: p in paths ==> exists i :: 0 <= i < |cs| && cs[i].path == p
  {
    if |cs| == 0 then {}
    else
      var prev := cs[..|cs| - 1];
      assert forall i :: 0 <= i < |prev| ==> prev[i] == cs[i];
      PathsOf(prev) + {cs[|cs| - 1].path}
  }

  /** The contexts' paths, in list order. */
  function PathList(cs: seq<FileContext>): (ps: seq<string>)
    ensures |ps| == |cs|
    ensures forall i :: 0 <= i < |cs| ==> ps[i] == cs[i].path
  {
    if |cs| == 0 then [] else [cs[0].path] + PathList(cs[1..])
  }

  /** The path list of a concatenation is the concatenation of the path lists. */
  lemma PathListConcat(a: seq<FileContext>, b: seq<FileContext>)
    ensures PathList(a + b) == PathList(a) + PathList(b)
  {
    assert forall i :: 0 <= i < |a + b| ==> PathList(a + b)[i] == (PathList(a) + PathList(b))[i];
  }

  /** Appending one context adds exactly its path. */
  lemma PathsOfAppend(cs: seq<FileContext>, c: FileContext)
    ensures PathsOf(cs + [c]) == PathsOf(cs) + {c.path}
  {
    assert (cs + [c])[..|cs|] == cs;
  }

  /** A single context covers exactly its own path. */
  lemma PathsOfSingle(c: FileContext)
    ensures PathsOf([c]) == {c.path}
  {
    assert [c][..0] == [];
  }

  /** Concatenating two lists unites their paths. */
  lemma {:induction false} PathsOfConcat(a: seq<FileContext>, b: seq<FileContext>)
    ensures PathsOf(a + b) == PathsOf(a) + PathsOf(b)
    decreases |b|
  {
    if |b| > 0 {
      var init := b[..|b| - 1];
      var last := b[|b| - 1];
      assert b == init + [last];
      assert a + b == (a + init) + [last];
      PathsOfConcat(a, init);
      PathsOfAppend(a + init, last);
      PathsOfAppend(init, last);
    } else {
      assert a + b == a;
    }
  }

  /** `a` is `b` with some elements left out and the rest kept in their order: each
      element of `b` is either matched by the next element of `a` or skipped. */
  predicate IsSubsequence<T(==)>(a: seq<T>, b: seq<T>)
    decreases |b|
  {
    if |a| == 0 then true
    else if |b| == 0 then false
    else (a[0] == b[0] && IsSubsequence(a[1..], b[1..])) || IsSubsequence(a, b[1..])
  }

  /** The elements of `s` that `keep` accepts, in order. */
  function Filter<T>(keep: T -> bool, s: seq<T>): (r: seq<T>)
    ensures |r| <= |s|
  {
    if |s| == 0 then []
    else (if keep(s[0]) then [s[0]] else []) + Filter(keep, s[1..])
  }

  /** Filtering distributes over concatenation. */
  lemma {:induction false} FilterConcat<T>(keep: T -> bool, a: seq<T>, b: seq<T>)
    ensures Filter(keep, a + b) == Filter(keep, a) + Filter(keep, b)
  {
    if |a| > 0 {
      FilterConcat(keep, a[1..], b);
      assert (a + b)[1..] == a[1..] + b;
    } else {
      assert a + b == b;
    }
  }

  /** A filter keeps every accepted element as often as it occurs, and no other. */
  lemma {:induction false} FilterCount<T>(keep: T -> bool, s: seq<T>, x: T)
    ensures multiset(Filter(keep, s))[x] == if keep(x) then multiset(s)[x] else 0
  {
    if |s| > 0 {
      FilterCount(keep, s[1..], x);
      assert s == [s[0]] + s[1..];
    }
  }

  /** No path is emitted twice. */
  predicate NoDuplicatePaths(cs: seq<FileContext>) {
    forall i, j :: 0 <= i < j < |cs| ==> cs[i].path != cs[j].path
  }

  /** Every context holds its file's text as read and the header path
      `getRelativePath` gives. */
  ghost predicate ContextsFaithful(host: Host, cs: seq<FileContext>) {
    forall i :: 0 <= i < |cs| ==>
      host.content(cs[i].path) == Some(cs[i].content) && cs[i].relativePath == RelativePath(host.basePath, cs[i].path)
  }

  /** A one-element list holding a file's own text and header path is faithful. */
  lemma FaithfulSingle(host: Host, c: FileContext)
    requires host.content(c.path) == Some(c.content) && c.relativePath == RelativePath(host.basePath, c.path)
    ensures ContextsFaithful(host, [c])
  {
  }

  /** Appending a context for a path not yet covered keeps paths distinct. */
  lemma AppendKeepsDistinct(cs: seq<FileContext>, c: FileContext, processed: set<string>)
    requires NoDuplicatePaths(cs) && PathsOf(cs) <= processed && c.path !in processed
    ensures NoDuplicatePaths(cs + [c])
  {
    var ds := cs + [c];
    forall i, j | 0 <= i < j < |ds|
      ensures ds[i].path != ds[j].path
    {
      assert ds[i] == cs[i];
      if j < |cs| {
        assert ds[j] == cs[j];
      } else {
        assert cs[i].path in PathsOf(cs);
      }
    }
  }

  /** Appending a faithful context keeps the list faithful. */
  lemma AppendKeepsFaithful(host: Host, cs: seq<FileContext>, c: FileContext)
    requires ContextsFaithful(host, cs)
    requires host.content(c.path) == Some(c.content) && c.relativePath == RelativePath(host.basePath, c.path)
    ensures ContextsFaithful(host, cs + [c])
  {
    var ds := cs + [c];
    forall i | 0 <= i < |ds|
      ensures host.content(ds[i].path) == Some(ds[i].content) && ds[i].relativePath == RelativePath(host.basePath, ds[i].path)
    {
      if i < |cs| {
        assert ds[i] == cs[i];
      }
    }
  }

  /** Concatenating two faithful lists gives a faithful list. */
  lemma AppendKeepsFaithfulAll(host: Host, a: seq<FileContext>, b: seq<FileContext>)
    requires ContextsFaithful(host, a) && ContextsFaithful(host, b)
    ensures ContextsFaithful(host, a + b)
  {
    var ab := a + b;
    forall i | 0 <= i < |ab|
      ensures host.content(ab[i].path) == Some(ab[i].content) && ab[i].relativePath == RelativePath(host.basePath, ab[i].path)
    {
      if i < |a| {
        assert ab[i] == a[i];
      } else {
        assert ab[i] == b[i - |a|];
      }
    }
  }

  /** The cache only gains keys, and a non-null answer, once stored, never changes. */
  ghost predicate CacheGrows(before: Cache, after: Cache) {
    && before.Keys <= after.Keys
    && forall n :: n in before && before[n].Some? ==> after[n] == before[n]
  }

  /** `processed` and `contexts` only grow, and so does the cache. */
  ghost predicate Grows(before: Walk, after: Walk) {
    && before.processed <= after.processed
    && before.contexts <= after.contexts
    && CacheGrows(before.cache, after.cache)
  }

  /** Marking a file processed and appending a context is growth. */
  lemma AppendGrows(st: Walk, f: string, c: FileContext)
    ensures Grows(st, Walk(st.processed + {f}, st.contexts + [c], st.cache))
  {
    assert st.contexts <= st.contexts + [c];
  }

  /** `p` was read and parsed, and `n` is among the names `parseImports` gives for it. */
  ghost predicate Imports(host: Host, p: string, n: string) {
    && host.content(p).Some? && host.psi(p).Some?
    && exists k :: 0 <= k < |ParseImports(host.psi(p).value)| && ParseImports(host.psi(p).value)[k].fqName == n
  }

  /** `contextFile` is among `processed`, was read and parsed, and `refs` is what
      `parseImports` gives for it. */
  ghost predicate ImportListOf(host: Host, processed: set<string>, contextFile: string, refs: seq<ImportInfo>) {
    && contextFile in processed && host.content(contextFile).Some? && host.psi(contextFile).Some?
    && refs == ParseImports(host.psi(contextFile).value)
  }

  /** Each entry of a processed file's import list is a name it imports, and the
      list stays that file's as the processed set grows. */
  lemma ImportListStep(host: Host, processed: set<string>, later: set<string>, contextFile: string, refs: seq<ImportInfo>, i: nat)
    requires ImportListOf(host, processed, contextFile, refs) && i < |refs| && processed <= later
    ensures contextFile in processed && Imports(host, contextFile, refs[i].fqName)
    ensures ImportListOf(host, later, contextFile, refs)
  {
  }

  /** Some file of `files` imports `n`. */
  ghost predicate ImportedBy(host: Host, files: set<string>, n: string) {
    exists q :: q in files && Imports(host, q, n)
  }

  /** `p` is the answer the cache holds for a name that a processed file imports. */
  ghost predicate Answered(host: Host, st: Walk, p: string) {
    exists n :: n in st.cache && st.cache[n] == Some(p) && ImportedBy(host, st.processed, n)
  }

  /** Every processed file is one of `roots` or was reached through a cached answer:
      the walk visits nothing it was not led to. */
  ghost predicate Justified(host: Host, st: Walk, roots: seq<string>) {
    forall p :: p in st.processed ==> p in roots || Answered(host, st, p)
  }

  /** A file reached stays reached as the walk grows. */
  lemma AnsweredGrows(host: Host, before: Walk, after: Walk, p: string)
    requires Answered(host, before, p) && Grows(before, after)
    ensures Answered(host, after, p)
  {
    var n :| n in before.cache && before.cache[n] == Some(p) && ImportedBy(host, before.processed, n);
    var q :| q in before.processed && Imports(host, q, n);
    assert ImportedBy(host, after.processed, n);
  }

  /** Growth that adds `f`, itself a root or reached, keeps the walk justified. */
  lemma JustifiedGrows(host: Host, before: Walk, after: Walk, roots: seq<string>, f: string)
    requires Justified(host, before, roots) && Grows(before, after)
    requires after.processed <= before.processed + {f}
    requires f in roots || Answered(host, before, f)
    ensures Justified(host, after, roots)
  {
    forall p | p in after.processed && p !in roots
      ensures Answered(host, after, p)
    {
      AnsweredGrows(host, before, after, p);
    }
  }

  /** After resolving a name that a processed file imports, the answer, if any, is
      reached. */
  lemma ResolveReaches(host: Host, st: Walk, contextFile: string, name: string)
    requires contextFile in st.processed && Imports(host, contextFile, name)
    ensures var res := Resolve(host, st.cache, name, contextFile);
      res.0.Some? ==> Answered(host, st.(cache := res.1), res.0.value)
  {
    assert ImportedBy(host, st.processed, name);
  }

  /** Growth is transitive. */
  lemma GrowsTransitive(a: Walk, b: Walk, c: Walk)
    requires Grows(a, b) && Grows(b, c)
    ensures Grows(a, c)
  {
  }

  /** Resolving a name grows the cache. */
  lemma ResolveGrowsCache(host: Host, cache: Cache, name: string, contextFile: string)
    ensures CacheGrows(cache, Resolve(host, cache, name, contextFile).1)
  {
  }

  /** Growing sets leave fewer unvisited files. */
  lemma UnvisitedShrinks(universe: set<string>, before: set<string>, after: set<string>)
    requires before <= after
    ensures |universe - after| <= |universe - before|
  {
    var small, big := universe - after, universe - before;
    assert small <= big;
    assert big == small + (big - small);
  }

  /** Visiting an unvisited file of the universe leaves one fewer unvisited file;
      visiting a file outside it leaves the unvisited files as they are. */
  lemma VisitShrinks(universe: set<string>, before: set<string>, f: string)
    requires f !in before
    ensures f in universe ==> |universe - (before + {f})| < |universe - before|
    ensures f !in universe ==> universe - (before + {f}) == universe - before
  {
    if f in universe {
      assert universe - before == (universe - (before + {f})) + {f};
    }
  }
}
