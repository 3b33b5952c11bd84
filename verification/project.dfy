/** The host capabilities the collectors and the resolver consult, as plain data and
    total functions: the project file index's facts about a file, class lookup in a
    search scope, reading a file's text, and parsing it into PSI. */
module Project {
  import opened Wrappers
  import opened Parser

  /** A non-test source root of a file's module, and whether it is an ancestor of the
      file (`VfsUtil.isAncestor(root, file, false)`). */
  datatype RootInfo = RootInfo(path: string, isAncestorOfFile: bool)

  /** A module: its name and its non-test source roots (`getSourceRoots(false)`). */
  datatype ModuleInfo = ModuleInfo(name: string, sourceRoots: seq<RootInfo>)

  /** What `VirtualFile` and `ProjectFileIndex` say about one file. */
  datatype IndexFacts = IndexFacts(
    valid: bool,                 // isValid && exists()
    inProject: bool,             // isInProject
    inSource: bool,              // isInSource
    inGeneratedSources: bool,    // isInGeneratedSources
    generatedByFilter: bool,     // GeneratedSourcesFilter.isGeneratedSourceByAnyFilter
    sourceRoot: Option<string>,  // path of getSourceRootForFile
    moduleInfo: Option<ModuleInfo>)  // getModuleForFile

  /** A `GlobalSearchScope`. */
  datatype Scope = ModuleWithDependencies(moduleName: string) | ProjectScope

  /** `JavaPsiFacade.findClass` followed by `containingFile?.virtualFile`: the lookup
      throws, finds no class, finds a class with no backing file, or finds one whose
      file has the given path. */
  datatype Lookup = Throws | NoClass | ClassWithoutFile | ClassIn(file: string)

  /** The host, for one project. Files are identified by their paths. */
  datatype Host = Host(
    facts: string -> IndexFacts,
    findClass: (string, Scope) -> Lookup,
    content: string -> Option<string>,     // None: reading the bytes throws
    psi: string -> Option<ParsedFile>,     // None: PsiManager.findFile gives null
    basePath: Option<string>)              // project.basePath

  /** The file universe `universe` is finite and holds every file a class lookup can
      produce. */
  ghost predicate Closed(host: Host, universe: set<string>) {
    forall name, scope :: host.findClass(name, scope).ClassIn? ==> host.findClass(name, scope).file in universe
  }
}
