/** `JavaKotlinParser`: turns a parsed Java or Kotlin file into the ordered list of
    names whose defining files the collector should follow.

    The PSI tree and its visitors belong to the host. What the host hands over is
    modelled as data: the file's import statements, its package, and the sequence of
    "usages" its visitors meet (a reference element or type element in Java; a user
    type, a call's callee or a qualified expression's receiver in Kotlin), each with
    the name it mentions, what the host resolves it to, and its line. The filtering
    and classification rules applied to those usages are modelled exactly. */
module Parser {
  import opened Wrappers
  import opened Text

  /** `ImportInfo`: a qualified name to resolve (the source calls it `module`) and
      the line where it occurs. */
  datatype ImportInfo = ImportInfo(fqName: string, line: int)

  /** What a usage resolves to: nothing, a Kotlin class (whose `fqName` may be null),
      a Java/light class (whose `qualifiedName` may be null), or any other element. */
  datatype Target =
    | Unresolved
    | KtClassTarget(fqName: Option<string>)
    | PsiClassTarget(qualifiedName: Option<string>)
    | OtherTarget

  /** Which visitor callback met the usage. */
  datatype UsageKind =
    | JavaReference         // a Java reference element, or a type element's innermost reference
    | KotlinUserType        // a Kotlin user type
    | KotlinNameExpression  // a Kotlin call's callee or a qualified expression's receiver

  /** A usage site: the simple name it mentions (null when the PSI has none), its
      resolution and its line number. */
  datatype Usage = Usage(kind: UsageKind, name: Option<string>, target: Target, line: int)

  /** An import statement or directive: its qualified name (null for an incomplete
      import) and its line number. */
  datatype ImportStatement = ImportStatement(qualifiedName: Option<string>, line: int)

  /** What `PsiManager.findFile` yields, as far as the parser looks at it. A Java file's
      import list may itself be null. */
  datatype ParsedFile =
    | JavaFile(packageName: string, importList: Option<seq<ImportStatement>>, usages: seq<Usage>)
    | KotlinFile(packageName: string, importDirectives: seq<ImportStatement>, usages: seq<Usage>)
    | OtherFile

  /** The package prefixes `isStandardLibraryClass` rejects. */
  const StandardPrefixes: seq<string> := ["java.", "javax.", "kotlin.", "kotlinx.", "android.", "androidx."]

  /** The 18 simple names `isPrimitiveType` rejects. */
  const ExcludedNames: set<string> := {
    "String", "Object", "List", "Map", "Set", "Collection", "Integer", "Long", "Double",
    "Float", "Boolean", "Character", "Byte", "Short", "ArrayList", "HashMap", "HashSet",
    "Optional"
  }

  /** `isStandardLibraryClass`: the name lies under one of the platform packages. */
  predicate IsStandardLibraryClass(fqName: string) {
    || StartsWith(fqName, "java.")
    || StartsWith(fqName, "javax.")
    || StartsWith(fqName, "kotlin.")
    || StartsWith(fqName, "kotlinx.")
    || StartsWith(fqName, "android.")
    || StartsWith(fqName, "androidx.")
  }

  /** A name is a standard-library class exactly when it starts with one of the
      listed prefixes; every prefix ends in '.', so "javafx.Foo" is not one. */
  lemma StandardLibraryIffListedPrefix(fqName: string)
    ensures IsStandardLibraryClass(fqName) <==> exists p :: p in StandardPrefixes && StartsWith(fqName, p)
    ensures !IsStandardLibraryClass("javafx.scene.Node")
  {
    if IsStandardLibraryClass(fqName) {
      if StartsWith(fqName, "java.") {
        assert StandardPrefixes[0] == "java.";
      } else if StartsWith(fqName, "javax.") {
        assert StandardPrefixes[1] == "javax.";
      } else if StartsWith(fqName, "kotlin.") {
        assert StandardPrefixes[2] == "kotlin.";
      } else if StartsWith(fqName, "kotlinx.") {
        assert StandardPrefixes[3] == "kotlinx.";
      } else if StartsWith(fqName, "android.") {
        assert StandardPrefixes[4] == "android.";
      } else {
        assert StandardPrefixes[5] == "androidx.";
      }
    }
    var fx := "javafx.scene.Node";
    assert fx[..5] != "java." by { assert fx[4] == 'f'; }
    assert fx[..6] != "javax." by { assert fx[4] == 'f'; }
  }

  /** `fqName` names a class declared directly in package `pkg`: it is
      `pkg + "." + rest` where `rest` has no further '.'. */
  predicate IsDirectMember(fqName: string, pkg: string) {
    StartsWith(fqName, pkg + ".") && '.' !in fqName[|pkg| + 1..]
  }

  /** `shouldIncludeReference`: a direct member of the current package is always
      followed, even when it lies under a platform prefix; any other name is followed
      exactly when it is not a standard-library class. */
  function ShouldIncludeReference(fqName: string, pkg: string): (follow: bool)
    ensures forall rest :: fqName == pkg + "." + rest && '.' !in rest ==> follow
    ensures !IsStandardLibraryClass(fqName) ==> follow
    ensures follow && IsStandardLibraryClass(fqName) ==> IsDirectMember(fqName, pkg)
  {
    if IsDirectMember(fqName, pkg) then
      true
    else
      assert forall rest :: fqName == pkg + "." + rest ==> fqName[|pkg| + 1..] == rest;
      !IsStandardLibraryClass(fqName)
  }

  /** Java's `Character.isUpperCase` on ASCII and Latin-1: 'A'..'Z', U+00C0..U+00D6
      and U+00D8..U+00DE. */
  predicate IsUpperCase(c: char) {
    ('A' <= c <= 'Z') || ('\U{C0}' <= c <= '\U{D6}') || ('\U{D8}' <= c <= '\U{DE}')
  }

  /** `isPrimitiveType`: one of the excluded common library type names. */
  predicate IsPrimitiveType(name: string) {
    name in ExcludedNames
  }

  /** `isValidClassName`: non-empty, capitalised, and not an excluded name. */
  predicate IsValidClassName(name: string) {
    |name| > 0 && IsUpperCase(name[0]) && !IsPrimitiveType(name)
  }

  /** The `ImportInfo` a resolved class contributes: its qualified name at the usage's
      line, when that name is non-null and passes `shouldIncludeReference`. */
  function FromClass(qualifiedName: Option<string>, pkg: string, line: int): (r: Option<ImportInfo>)
    ensures r.Some? <==> qualifiedName.Some? && ShouldIncludeReference(qualifiedName.value, pkg)
    ensures r.Some? ==> r.value == ImportInfo(qualifiedName.value, line)
  {
    if qualifiedName.Some? && ShouldIncludeReference(qualifiedName.value, pkg) then
      Some(ImportInfo(qualifiedName.value, line))
    else
      None
  }

  /** The `process*Reference` rules: what one usage contributes, if anything.
      Names that are null or fail `isValidClassName` contribute nothing. A Java
      reference counts only when it resolves to a class. A Kotlin user type or name
      expression counts when it resolves to a Kotlin or Java class. An unresolved
      Kotlin user type is guessed to live in the current package, when there is one,
      without passing through `shouldIncludeReference`. */
  function Classify(u: Usage, pkg: string): (r: Option<ImportInfo>)
    ensures r.Some? ==> u.name.Some? && IsValidClassName(u.name.value) && r.value.line == u.line
    ensures r.Some? && !u.target.Unresolved? ==> ShouldIncludeReference(r.value.fqName, pkg)
    ensures r.Some? && u.target.Unresolved? ==>
      u.kind == KotlinUserType && pkg != "" && r.value.fqName == pkg + "." + u.name.value
    ensures u.target.OtherTarget? ==> r.None?
    ensures u.kind == JavaReference && u.target.KtClassTarget? ==> r.None?
  {
    match u.name
    case None => None
    case Some(n) =>
      if !IsValidClassName(n) then None
      else
        match u.kind
        case JavaReference =>
          (match u.target
           case PsiClassTarget(q) => FromClass(q, pkg, u.line)
           case _ => None)
        case KotlinUserType =>
          (match u.target
           case KtClassTarget(q) => FromClass(q, pkg, u.line)
           case PsiClassTarget(q) => FromClass(q, pkg, u.line)
           case Unresolved => if pkg != "" then Some(ImportInfo(pkg + "." + n, u.line)) else None
           case OtherTarget => None)
        case KotlinNameExpression =>
          (match u.target
           case KtClassTarget(q) => FromClass(q, pkg, u.line)
           case PsiClassTarget(q) => FromClass(q, pkg, u.line)
           case _ => None)
  }

  /** An unresolved usage contributes exactly when it is a Kotlin user type with a
      valid name and the package is non-empty; unresolved Java references and
      unresolved Kotlin name expressions never contribute. */
  lemma UnresolvedUsage(u: Usage, pkg: string)
    requires u.target.Unresolved?
    ensures Classify(u, pkg).Some? <==>
      u.kind == KotlinUserType && u.name.Some? && IsValidClassName(u.name.value) && pkg != ""
    ensures Classify(u, pkg).Some? ==> Classify(u, pkg).value == ImportInfo(pkg + "." + u.name.value, u.line)
  {
  }

  /** A usage resolved to a class (a Java/light class for any kind, a Kotlin class
      for the Kotlin kinds) with a valid name contributes its qualified name exactly
      when that name is non-null and passes `shouldIncludeReference`. */
  lemma ResolvedUsage(u: Usage, pkg: string, q: Option<string>)
    requires u.name.Some? && IsValidClassName(u.name.value)
    requires u.target == PsiClassTarget(q) || (u.target == KtClassTarget(q) && u.kind != JavaReference)
    ensures Classify(u, pkg) == (if q.Some? && ShouldIncludeReference(q.value, pkg) then Some(ImportInfo(q.value, u.line)) else None)
  {
  }

  /** The same-package guess for an unresolved Kotlin type would have passed the
      filter anyway whenever the simple name has no '.'. */
  lemma FallbackPassesFilter(pkg: string, n: string)
    requires '.' !in n
    ensures ShouldIncludeReference(pkg + "." + n, pkg)
  {
    assert pkg + "." + n == pkg + "." + n;
  }

  /** The usages' contributions in visiting order, duplicates included. */
  function Contributions(usages: seq<Usage>, pkg: string): (r: seq<ImportInfo>)
    ensures |r| <= |usages|
    ensures forall x :: x in r <==> exists i :: 0 <= i < |usages| && Classify(usages[i], pkg) == Some(x)
  {
    if |usages| == 0 then []
    else
      var prev := Contributions(usages[..|usages| - 1], pkg);
      var last := usages[|usages| - 1];
      assert forall i :: 0 <= i < |usages| - 1 ==> usages[..|usages| - 1][i] == usages[i];
      match Classify(last, pkg)
      case Some(x) => prev + [x]
      case None => prev
  }

  /** No element occurs twice. */
  predicate NoDuplicates<T(==)>(s: seq<T>) {
    forall i, j :: 0 <= i < j < |s| ==> s[i] != s[j]
  }

  /** `LinkedHashSet.toList()` after adding the elements of `s` in order: every
      distinct element once, at the place of its first insertion. */
  function Dedup(s: seq<ImportInfo>): (r: seq<ImportInfo>)
    ensures NoDuplicates(r)
    ensures forall x :: x in r <==> x in s
    ensures |r| <= |s|
  {
    if |s| == 0 then []
    else
      var prev := Dedup(s[..|s| - 1]);
      assert forall x :: x in s <==> x in s[..|s| - 1] || x == s[|s| - 1];
      if s[|s| - 1] in prev then prev else prev + [s[|s| - 1]]
  }

  /** Position of the first occurrence of `x` in `s`. */
  function FirstIndex(s: seq<ImportInfo>, x: ImportInfo): (i: nat)
    requires x in s
    ensures i < |s| && s[i] == x && x !in s[..i]
  {
    if s[0] == x then 0
    else
      var i := FirstIndex(s[1..], x);
      assert s[..i + 1] == [s[0]] + s[1..][..i];
      i + 1
  }

  /** The first occurrence is the only one with no earlier occurrence. */
  lemma FirstIndexUnique(s: seq<ImportInfo>, x: ImportInfo, a: nat)
    requires a < |s| && s[a] == x && x !in s[..a]
    ensures FirstIndex(s, x) == a
  {
    var b := FirstIndex(s, x);
  }

  /** `Dedup` keeps the order of first insertion: an element comes before another
      exactly when its first occurrence in the input comes first. */
  lemma {:induction false} DedupFirstInsertionOrder(s: seq<ImportInfo>)
    ensures forall i, j :: 0 <= i < j < |Dedup(s)| ==> FirstIndex(s, Dedup(s)[i]) < FirstIndex(s, Dedup(s)[j])
  {
    if |s| > 0 {
      var init := s[..|s| - 1];
      var prev := Dedup(init);
      var r := Dedup(s);
      DedupFirstInsertionOrder(init);
      assert r[..|prev|] == prev;
      forall x | x in init
        ensures FirstIndex(s, x) == FirstIndex(init, x)
      {
        var a := FirstIndex(init, x);
        assert s[..a] == init[..a];
        FirstIndexUnique(s, x, a);
      }
      forall i, j | 0 <= i < j < |r|
        ensures FirstIndex(s, r[i]) < FirstIndex(s, r[j])
      {
        assert r[i] == prev[i] && r[i] in init;
        if j < |prev| {
          assert r[j] == prev[j] && r[j] in init;
        } else {
          assert r[j] == s[|s| - 1] && r[j] !in init;
          assert s[..|s| - 1] == init;
          FirstIndexUnique(s, r[j], |s| - 1);
        }
      }
    }
  }

  /** Two pairs that differ only in their line are both kept: de-duplication is on
      the (name, line) pair, not on the name. */
  lemma DistinctLinesKeptTwice(name: string, line1: int, line2: int)
    requires line1 != line2
    ensures Dedup([ImportInfo(name, line1), ImportInfo(name, line2)]) == [ImportInfo(name, line1), ImportInfo(name, line2)]
  {
    var s := [ImportInfo(name, line1), ImportInfo(name, line2)];
    assert s[..1] == [ImportInfo(name, line1)];
    assert [ImportInfo(name, line1)][..0] == [];
  }

  /** `parseJavaReferences` / `parseKotlinReferences`: the usages' contributions,
      de-duplicated in first-insertion order. */
  function InferredReferences(usages: seq<Usage>, pkg: string): seq<ImportInfo> {
    Dedup(Contributions(usages, pkg))
  }

  /** One more usage extends the contributions by that usage's own, if any. */
  lemma ContributionsStep(usages: seq<Usage>, i: nat, pkg: string)
    requires i < |usages|
    ensures Contributions(usages[..i + 1], pkg) ==
      Contributions(usages[..i], pkg) + (match Classify(usages[i], pkg) case Some(x) => [x] case None => [])
  {
    assert usages[..i + 1][..i] == usages[..i];
  }

  /** Adding one element to the insertion-ordered set. */
  lemma DedupStep(s: seq<ImportInfo>, x: ImportInfo)
    ensures Dedup(s + [x]) == if x in Dedup(s) then Dedup(s) else Dedup(s) + [x]
  {
    assert (s + [x])[..|s|] == s;
  }

  /** One more usage adds its contribution to the insertion-ordered set, unless the
      set already holds it. */
  lemma InferredStep(usages: seq<Usage>, i: nat, pkg: string)
    requires i < |usages|
    ensures var prev := InferredReferences(usages[..i], pkg);
      InferredReferences(usages[..i + 1], pkg) ==
        match Classify(usages[i], pkg)
        case None => prev
        case Some(x) => if x in prev then prev else prev + [x]
  {
    var prev := Contributions(usages[..i], pkg);
    ContributionsStep(usages, i, pkg);
    match Classify(usages[i], pkg)
    case Some(x) =>
      assert Contributions(usages[..i + 1], pkg) == prev + [x];
      DedupStep(prev, x);
    case None =>
      assert Contributions(usages[..i + 1], pkg) == prev;
  }

  /** The visitor loop of `parseJavaReferences` / `parseKotlinReferences`: each usage
      is classified and added to an insertion-ordered set. */
  method CollectReferences(usages: seq<Usage>, pkg: string) returns (refs: seq<ImportInfo>)
    ensures refs == InferredReferences(usages, pkg)
    ensures NoDuplicates(refs)
    ensures forall x :: x in refs <==> exists i :: 0 <= i < |usages| && Classify(usages[i], pkg) == Some(x)
  {
    var seen: set<ImportInfo> := {};
    refs := [];
    var i := 0;
    while i < |usages|
      invariant 0 <= i <= |usages|
      invariant refs == InferredReferences(usages[..i], pkg)
      invariant forall x :: x in seen <==> x in refs
    {
      InferredStep(usages, i, pkg);
      var c := Classify(usages[i], pkg);
      if c.Some? && c.value !in seen {
        refs := refs + [c.value];
        seen := seen + {c.value};
      }
      i := i + 1;
    }
    assert usages[..i] == usages;
  }

  /** `parseJavaImports` / `parseKotlinImports`: one `ImportInfo` per import whose
      qualified name is non-null, in order. */
  function ImportInfos(stmts: seq<ImportStatement>): (r: seq<ImportInfo>)
    ensures |r| <= |stmts|
    ensures forall x :: x in r <==> exists i :: 0 <= i < |stmts| && stmts[i] == ImportStatement(Some(x.fqName), x.line)
  {
    if |stmts| == 0 then []
    else
      var prev := ImportInfos(stmts[..|stmts| - 1]);
      var last := stmts[|stmts| - 1];
      assert forall i :: 0 <= i < |stmts| - 1 ==> stmts[..|stmts| - 1][i] == stmts[i];
      match last.qualifiedName
      case Some(q) => prev + [ImportInfo(q, last.line)]
      case None => prev
  }

  /** One import statement yields its entry when its name is non-null, and nothing
      otherwise. */
  lemma ImportInfosSingle(s: ImportStatement)
    ensures ImportInfos([s]) == if s.qualifiedName.Some? then [ImportInfo(s.qualifiedName.value, s.line)] else []
  {
    assert [s][..0] == [];
  }

  /** The entries of consecutive statement lists come one list after the other: the
      statements' order, and repeated imports, are kept. */
  lemma {:induction false} ImportInfosConcat(a: seq<ImportStatement>, b: seq<ImportStatement>)
    ensures ImportInfos(a + b) == ImportInfos(a) + ImportInfos(b)
    decreases |b|
  {
    if |b| == 0 {
      assert a + b == a;
    } else {
      var init := b[..|b| - 1];
      assert (a + b)[..|a + b| - 1] == a + init;
      assert (a + b)[|a + b| - 1] == b[|b| - 1];
      ImportInfosConcat(a, init);
    }
  }

  /** The file's import statements; a null Java import list has none. */
  function ImportStatements(f: ParsedFile): seq<ImportStatement>
    requires !f.OtherFile?
  {
    match f
    case JavaFile(_, list, _) => list.GetOr([])
    case KotlinFile(_, directives, _) => directives
  }

  /** `parseImports`: for a Java or Kotlin file its imports, then its inferred
      references; nothing for any other file. */
  function ParseImports(f: ParsedFile): (r: seq<ImportInfo>)
    ensures f.OtherFile? ==> r == []
  {
    match f
    case OtherFile => []
    case _ => ImportInfos(ImportStatements(f)) + InferredReferences(f.usages, f.packageName)
  }

  /** What `parseImports` yields: nothing for a file that is neither Java nor Kotlin;
      otherwise first one entry per non-null import (in order), then each usage
      contribution once. A name is in the list exactly when a non-null import or a
      contributing usage produced it. */
  lemma ParseImportsContents(f: ParsedFile)
    ensures f.OtherFile? ==> ParseImports(f) == []
    ensures !f.OtherFile? ==>
      var imports := ImportInfos(ImportStatements(f));
      && ParseImports(f)[..|imports|] == imports
      && NoDuplicates(ParseImports(f)[|imports|..])
      && forall x :: x in ParseImports(f) <==>
           || (exists i :: 0 <= i < |ImportStatements(f)| && ImportStatements(f)[i] == ImportStatement(Some(x.fqName), x.line))
           || (exists i :: 0 <= i < |f.usages| && Classify(f.usages[i], f.packageName) == Some(x))
  {
    if !f.OtherFile? {
      var imports := ImportInfos(ImportStatements(f));
      var inferred := InferredReferences(f.usages, f.packageName);
      assert ParseImports(f) == imports + inferred;
      assert ParseImports(f)[|imports|..] == inferred;
    }
  }

  /** `getLineNumber`: the 0-based line of `offset` in the file's document plus one,
      or 0 when the file has no document. A document's text separates lines by LF. */
  function LineNumber(document: Option<string>, offset: nat): (line: nat)
    requires document.Some? ==> offset <= |document.value|
    ensures line == 0 <==> document.None?
  {
    match document
    case None => 0
    case Some(text) => NewlineCount(text[..offset]) + 1
  }

  /** A document line number lies between 1 and the document's line count, and it
      never decreases as the offset grows. */
  lemma LineNumberBounds(text: string, offset: nat, later: nat)
    requires '\r' !in text
    requires offset <= later <= |text|
    ensures 1 <= LineNumber(Some(text), offset) <= LineNumber(Some(text), later) <= LineCount(text)
    ensures LineNumber(Some(text), 0) == 1
  {
    NewlineCountPrefix(text[..later], offset);
    assert text[..later][..offset] == text[..offset];
    NewlineCountPrefix(text, later);
    NewlinesAreSeparators(text);
    LineCountIsSeparatorsPlusOne(text);
  }

  /** The line number of an offset is the number of lines the text before it spans:
      the offset sits on the last of them. */
  lemma LineNumberIsLineOfOffset(text: string, offset: nat)
    requires '\r' !in text && offset <= |text|
    ensures LineNumber(Some(text), offset) == LineCount(text[..offset])
  {
    assert '\r' !in text[..offset];
    NewlinesAreSeparators(text[..offset]);
    LineCountIsSeparatorsPlusOne(text[..offset]);
  }
}
