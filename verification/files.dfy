/** Files as the collectors see them: a file is identified by its '/'-separated
    path; its name and extension are derived from the path the way `VirtualFile`
    derives them. `FileContext` is the unit of output of both collectors. */
module Files {
  import opened Wrappers
  import opened Text

  /** One collected file: absolute path, text, and the path shown in the header. */
  datatype FileContext = FileContext(path: string, content: string, relativePath: string)

  /** Index of the last `c` in `s`, or -1 when there is none. */
  function LastIndexOf(s: string, c: char): (r: int)
    ensures -1 <= r < |s|
    ensures r == -1 <==> c !in s
    ensures r >= 0 ==> s[r] == c && c !in s[r + 1..]
  {
    if |s| == 0 then -1
    else if s[|s| - 1] == c then |s| - 1
    else
      var r := LastIndexOf(s[..|s| - 1], c);
      assert r >= 0 ==> s[r + 1..] == s[..|s| - 1][r + 1..] + [s[|s| - 1]];
      r
  }

  /** `VirtualFile.name`: the last segment of the path. */
  function FileName(path: string): (name: string)
    ensures '/' !in name
    ensures EndsWith(path, name)
  {
    path[LastIndexOf(path, '/') + 1..]
  }

  /** The name is the last segment of the path: the whole path, or the part right
      after a '/'. */
  lemma FileNameIsLastSegment(path: string)
    ensures var name := FileName(path);
      name == path || (|name| < |path| && path[|path| - |name| - 1] == '/')
  {
  }

  /** The name of a file inside a directory is the part after the directory's path
      and the separating '/'. */
  lemma FileNameOfChild(dir: string, name: string)
    requires '/' !in name
    ensures FileName(dir + "/" + name) == name
  {
    var path := dir + "/" + name;
    var i := LastIndexOf(path, '/');
    assert path[|dir|] == '/';
    assert path[|dir| + 1..] == name;
  }

  /** `VirtualFile.extension`: what follows the last '.' of the name, or null when the
      name has no '.'. */
  function Extension(name: string): (ext: Option<string>)
    ensures ext.None? <==> '.' !in name
    ensures ext.Some? ==> '.' !in ext.value && EndsWith(name, "." + ext.value)
  {
    var i := LastIndexOf(name, '.');
    if i < 0 then None
    else
      assert name[i..] == "." + name[i + 1..];
      Some(name[i + 1..])
  }

  /** The extension test both collectors apply: the file is Java or Kotlin source. */
  predicate IsSourceExtension(path: string) {
    IsSourceName(FileName(path))
  }

  /** The file name has extension "java" or "kt". */
  predicate IsSourceName(name: string) {
    var ext := Extension(name);
    ext == Some("java") || ext == Some("kt")
  }

  /** The extension test holds exactly when the file name ends in ".java" or ".kt". */
  lemma SourceExtensionIffSuffix(name: string)
    ensures IsSourceName(name) <==> EndsWith(name, ".java") || EndsWith(name, ".kt")
  {
    var ext := Extension(name);
    if ext.Some? {
      assert EndsWith(name, "." + ext.value);
    }
    if EndsWith(name, ".java") {
      assert ".java" == "." + "java";
      SuffixFixesExtension(name, "java");
    } else if EndsWith(name, ".kt") {
      assert ".kt" == "." + "kt";
      SuffixFixesExtension(name, "kt");
    }
  }

  /** A name ending in "." + `ext`, where `ext` has no '.', has extension `ext`. */
  lemma SuffixFixesExtension(name: string, ext: string)
    requires '.' !in ext
    requires EndsWith(name, "." + ext)
    ensures Extension(name) == Some(ext)
  {
    var i := |name| - |ext| - 1;
    assert name[i] == '.';
    assert name[i + 1..] == ext;
  }

  /** `getRelativePath`: with no project base path the file's name; otherwise the
      path with the leading "<base>/" removed, or the whole path when it is not
      under the base. */
  function RelativePath(basePath: Option<string>, path: string): (rel: string)
    ensures basePath.None? ==> rel == FileName(path)
    ensures basePath.Some? ==> forall rest :: path == basePath.value + "/" + rest ==> rel == rest
    ensures basePath.Some? && !StartsWith(path, basePath.value + "/") ==> rel == path
  {
    match basePath
    case None => FileName(path)
    case Some(base) => RemovePrefix(path, base + "/")
  }
}
