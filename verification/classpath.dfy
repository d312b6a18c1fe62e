/** The world the example runner looks at, as plain data: the directories a
    class loader exposes for a resource path, the class table behind
    `Class.forName`, and the naming conventions that connect the two
    (dotted package names, slash-separated resource paths, `.class` files). */
module ClassPath {
  import opened Results

  /** The suffix of a compiled class file. */
  const ClassSuffix: string := ".class"

  /** An item a directory listing returns. A listed subdirectory exists. */
  datatype Entry =
    | Subdir(name: string, entries: seq<Entry>)
    | File(name: string)

  /** A directory a resource URL points at; it may not exist on disk. */
  datatype Directory = Directory(present: bool, entries: seq<Entry>)

  /** One resource the class loader enumerates for a path: either a URL whose
      path names a directory, or one that cannot be turned into a directory
      (a malformed URI, or an opaque URI without a path). */
  datatype Resource = Located(dir: Directory) | Unusable

  /** What `ClassLoader.getResources` gives for one path: the resources in
      enumeration order, or an I/O failure. */
  datatype Lookup = Resources(roots: seq<Resource>) | LookupFailed

  /** Reflection facts about one loadable class: the interfaces it declares
      directly (in declaration order), and whether its public no-argument
      constructor, its `run()` and its `cleanup()` complete without throwing. */
  datatype ClassInfo = ClassInfo(interfaces: seq<string>, constructs: bool, runs: bool, cleansUp: bool)

  /** A loaded class: the `Class` object `Class.forName` returns. */
  datatype Class = Class(name: string, info: ClassInfo)

  /** Every class `Class.forName` can load, by fully-qualified name. */
  type ClassTable = map<string, ClassInfo>

  /** The class loaders the runner consults: resources by path (the context
      class loader) and classes by name (`Class.forName`). A path missing from
      `resources` has no resources at all. */
  datatype ClassLoader = ClassLoader(resources: map<string, Lookup>, classes: ClassTable)

  /** Why discovery for a whole package failed. */
  datatype DiscoveryError = ResourceLookupFailed | UnusableResource

  predicate EndsWith(s: string, suffix: string) {
    |suffix| <= |s| && s[|s| - |suffix|..] == suffix
  }

  /** The class's simple name: a `.class` file name without its suffix. */
  function Stem(fileName: string): (simple: string)
    requires EndsWith(fileName, ClassSuffix)
    ensures |simple| == |fileName| - |ClassSuffix|
    ensures simple + ClassSuffix == fileName
  {
    fileName[..|fileName| - |ClassSuffix|]
  }

  /** `outer + "." + inner`: a member of package `outer`. */
  function Qualify(outer: string, inner: string): string {
    outer + "." + inner
  }

  /** `Class.forName(name)`: the loaded class, or nothing when the name is
      unknown (the `ClassNotFoundException` case). */
  function ForName(name: string, classes: ClassTable): Option<Class> {
    if name in classes then Some(Class(name, classes[name])) else None
  }

  /** `String.replace(char, char)`: every occurrence of `from` becomes `to`. */
  function ReplaceChar(s: string, from: char, to: char): (r: string)
    ensures |r| == |s|
    ensures forall i :: 0 <= i < |s| && s[i] == from ==> r[i] == to
    ensures forall i :: 0 <= i < |s| && s[i] != from ==> r[i] == s[i]
  {
    if s == [] then []
    else [if s[0] == from then to else s[0]] + ReplaceChar(s[1..], from, to)
  }

  /** The resource path of a package: its dots become slashes. */
  function PackageToPath(packageName: string): (path: string)
    ensures |path| == |packageName|
    ensures '.' !in path
    ensures forall i :: 0 <= i < |path| && packageName[i] == '.' ==> path[i] == '/'
    ensures forall i :: 0 <= i < |path| && packageName[i] != '.' ==> path[i] == packageName[i]
  {
    ReplaceChar(packageName, '.', '/')
  }

  /** The package a resource path names: the inverse direction of `PackageToPath`. */
  function PathToPackage(path: string): (packageName: string)
    ensures '/' !in packageName
  {
    ReplaceChar(path, '/', '.')
  }

  /** For package names without a slash (all Java package names), the resource
      path determines the package: mapping it back gives the name again. */
  lemma PathRoundTrip(packageName: string)
    requires '/' !in packageName
    ensures PathToPackage(PackageToPath(packageName)) == packageName
  {
  }

  /** The mapping is injective on slash-free names: two packages never share
      a resource path. */
  lemma PackageToPathInjective(p: string, q: string)
    requires '/' !in p && '/' !in q
    requires PackageToPath(p) == PackageToPath(q)
    ensures p == q
  {
  }

  /** With a slash in the name the mapping is not injective: `a.b` and `a/b`
      are looked up under the same path `a/b`. */
  lemma SlashCollision()
    ensures PackageToPath("a.b") == PackageToPath("a/b") == "a/b"
  {
  }
}
