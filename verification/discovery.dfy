/** Class discovery of the example runner: a package name is mapped to a
    resource path, every directory the class loader exposes for that path is
    walked recursively, and each `.class` file becomes the fully-qualified name
    of a class to load. Names that fail to load are skipped. */
module Discovery {
  import opened Results
  import opened ClassPath

  /** The classes that loading `name` yields: one class, or none when
      `Class.forName` fails. */
  function Loaded(name: string, classes: ClassTable): (found: seq<Class>)
    ensures |found| <= 1
    ensures found != [] <==> name in classes
    ensures forall c | c in found :: c == Class(name, classes[name])
  {
    match ForName(name, classes)
    case Some(c) => [c]
    case None => []
  }

  /** The loop of `findClasses` over a directory listing, in listing order:
      a subdirectory is searched as a subpackage and its classes are spliced in
      at its position; a `.class` file is loaded under `packageName`; any other
      file is ignored. Every class found is loadable and lives below
      `packageName`. */
  function Scan(entries: seq<Entry>, packageName: string, classes: ClassTable): (found: seq<Class>)
    decreases entries
    ensures forall c | c in found :: c.name in classes && classes[c.name] == c.info
    ensures forall c | c in found :: packageName + "." <= c.name
  {
    if entries == [] then []
    else
      var head := match entries[0]
        case Subdir(name, sub) => Scan(sub, Qualify(packageName, name), classes)
        case File(name) =>
          if EndsWith(name, ClassSuffix) then Loaded(Qualify(packageName, Stem(name)), classes) else [];
      head + Scan(entries[1..], packageName, classes)
  }

  /** `findClasses(directory, packageName)`: nothing for a directory that
      does not exist, otherwise the classes found by scanning its listing. */
  function FindClasses(dir: Directory, packageName: string, classes: ClassTable): (found: seq<Class>)
    ensures !dir.present ==> found == []
    ensures forall c | c in found :: c.name in classes && classes[c.name] == c.info
    ensures forall c | c in found :: packageName + "." <= c.name
  {
    if !dir.present then [] else Scan(dir.entries, packageName, classes)
  }

  /** The loop of `getClasses` over the enumerated resources: the classes of
      every root, appended in enumeration order. A resource that cannot be
      turned into a directory aborts the whole enumeration, discarding what
      earlier roots produced; a root directory that does not exist adds
      nothing. */
  function FindInRoots(roots: seq<Resource>, packageName: string, classes: ClassTable)
    : (r: Result<seq<Class>, DiscoveryError>)
    ensures r.Success? <==> forall i | 0 <= i < |roots| :: roots[i].Located?
    ensures r.Failure? ==> r.error == UnusableResource
    ensures roots == [] ==> r == Success([])
    ensures r.Success? ==> forall c | c in r.value :: c.name in classes && classes[c.name] == c.info
    ensures r.Success? ==> forall c | c in r.value :: packageName + "." <= c.name
  {
    if roots == [] then Success([])
    else
      match roots[0]
      case Unusable => Failure(UnusableResource)
      case Located(dir) =>
        var rest := FindInRoots(roots[1..], packageName, classes);
        if rest.Failure? then rest
        else Success(FindClasses(dir, packageName, classes) + rest.value)
  }

  /** `getClasses(packageName)`: ask the class loader for the resources of the
      package's path and collect the classes under each of them. An I/O
      failure of the lookup, or an unusable resource, fails the whole call; a
      path without any resources yields no classes and no failure. */
  function GetClasses(packageName: string, loader: ClassLoader): (r: Result<seq<Class>, DiscoveryError>)
    ensures PackageToPath(packageName) !in loader.resources ==> r == Success([])
    ensures PackageToPath(packageName) in loader.resources
              && loader.resources[PackageToPath(packageName)] == LookupFailed
            ==> r == Failure(ResourceLookupFailed)
    ensures PackageToPath(packageName) in loader.resources
              && loader.resources[PackageToPath(packageName)].Resources?
            ==> (r.Failure? <==> exists i | 0 <= i < |loader.resources[PackageToPath(packageName)].roots| ::
                                   loader.resources[PackageToPath(packageName)].roots[i] == Unusable)
    ensures r.Success? ==> forall c | c in r.value ::
              c.name in loader.classes && loader.classes[c.name] == c.info
    ensures r.Success? ==> forall c | c in r.value :: packageName + "." <= c.name
  {
    var path := PackageToPath(packageName);
    var lookup := if path in loader.resources then loader.resources[path] else Resources([]);
    match lookup
    case LookupFailed => Failure(ResourceLookupFailed)
    case Resources(roots) => FindInRoots(roots, packageName, loader.classes)
  }

  // ---------------------------------------------------------------------
  // A reference description of the walk: first list every file below a
  // directory with its path of subdirectory names, then turn each listed
  // `.class` file into a name and load it.

  /** A file found below a directory: the subdirectory names leading to it,
      outermost first, and the file's own name. */
  datatype FileRef = FileRef(path: seq<string>, name: string)

  /** The dotted tail a path of subdirectories adds to a package name:
      `.d1.d2...dk`. */
  function Segments(path: seq<string>): string {
    if path == [] then "" else "." + path[0] + Segments(path[1..])
  }

  /** The fully-qualified name `p.d1.....dk.F` of class `F` found at
      `d1/.../dk` below the directory of package `p`. */
  function QualifiedName(packageName: string, path: seq<string>, simple: string): string {
    packageName + Segments(path) + "." + simple
  }

  /** Naming a class from subpackage `p.d` through path `ds` is naming it
      from `p` through path `d, ds`. */
  lemma QualifiedNameShift(packageName: string, dirName: string, path: seq<string>, simple: string)
    ensures QualifiedName(Qualify(packageName, dirName), path, simple)
         == QualifiedName(packageName, [dirName] + path, simple)
  {
  }

  /** The listing `fs` as seen from one directory further up, through
      subdirectory `dirName`. */
  function Under(dirName: string, fs: seq<FileRef>): (r: seq<FileRef>)
    ensures |r| == |fs|
    ensures forall i | 0 <= i < |fs| :: r[i] == FileRef([dirName] + fs[i].path, fs[i].name)
  {
    if fs == [] then [] else [FileRef([dirName] + fs[0].path, fs[0].name)] + Under(dirName, fs[1..])
  }

  /** Every file below a listing, depth first in listing order. */
  function ListEntries(entries: seq<Entry>): seq<FileRef>
    decreases entries
  {
    if entries == [] then []
    else
      var head := match entries[0]
        case Subdir(name, sub) => Under(name, ListEntries(sub))
        case File(name) => [FileRef([], name)];
      head + ListEntries(entries[1..])
  }

  /** Every file below a directory; nothing when the directory is missing. */
  function Listing(dir: Directory): seq<FileRef> {
    if dir.present then ListEntries(dir.entries) else []
  }

  /** What one listed file contributes when its directory is searched as
      package `packageName`. */
  function Candidate(f: FileRef, packageName: string, classes: ClassTable): seq<Class> {
    if EndsWith(f.name, ClassSuffix)
    then Loaded(QualifiedName(packageName, f.path, Stem(f.name)), classes)
    else []
  }

  /** The classes a whole listing contributes, in listing order. */
  function Discovered(fs: seq<FileRef>, packageName: string, classes: ClassTable): seq<Class> {
    if fs == [] then [] else Candidate(fs[0], packageName, classes) + Discovered(fs[1..], packageName, classes)
  }

  /** Listed file `f` yields class `c`: `f` is a `.class` file, `c`'s name is
      the file's qualified name, and that name loads as `c`. */
  ghost predicate Yields(f: FileRef, packageName: string, classes: ClassTable, c: Class) {
    && EndsWith(f.name, ClassSuffix)
    && c.name == QualifiedName(packageName, f.path, Stem(f.name))
    && c.name in classes
    && c.info == classes[c.name]
  }

  lemma {:induction false} DiscoveredAppend(a: seq<FileRef>, b: seq<FileRef>, packageName: string, classes: ClassTable)
    ensures Discovered(a + b, packageName, classes)
         == Discovered(a, packageName, classes) + Discovered(b, packageName, classes)
  {
    if a == [] {
      assert a + b == b;
    } else {
      var head := Candidate(a[0], packageName, classes);
      assert (a + b)[0] == a[0];
      assert (a + b)[1..] == a[1..] + b;
      DiscoveredAppend(a[1..], b, packageName, classes);
      calc {
        Discovered(a + b, packageName, classes);
        head + Discovered(a[1..] + b, packageName, classes);
        head + (Discovered(a[1..], packageName, classes) + Discovered(b, packageName, classes));
        (head + Discovered(a[1..], packageName, classes)) + Discovered(b, packageName, classes);
      }
    }
  }

  /** Searching subdirectory `d` as package `p.d` names its files exactly as
      searching the parent as `p` names them through `d`. */
  lemma {:induction false} DiscoveredUnder(dirName: string, fs: seq<FileRef>, packageName: string, classes: ClassTable)
    ensures Discovered(Under(dirName, fs), packageName, classes)
         == Discovered(fs, Qualify(packageName, dirName), classes)
  {
    if fs != [] {
      var f := fs[0];
      var g := FileRef([dirName] + f.path, f.name);
      var under := Under(dirName, fs);
      assert under[0] == g;
      assert under[1..] == Under(dirName, fs[1..]);
      CandidateUnder(dirName, f, packageName, classes);
      DiscoveredUnder(dirName, fs[1..], packageName, classes);
    }
  }

  lemma CandidateUnder(dirName: string, f: FileRef, packageName: string, classes: ClassTable)
    ensures Candidate(FileRef([dirName] + f.path, f.name), packageName, classes)
         == Candidate(f, Qualify(packageName, dirName), classes)
  {
    if EndsWith(f.name, ClassSuffix) {
      QualifiedNameShift(packageName, dirName, f.path, Stem(f.name));
    }
  }

  lemma {:induction false} ScanIsDiscovered(entries: seq<Entry>, packageName: string, classes: ClassTable)
    decreases entries
    ensures Scan(entries, packageName, classes) == Discovered(ListEntries(entries), packageName, classes)
  {
    if entries != [] {
      var rest := ListEntries(entries[1..]);
      ScanIsDiscovered(entries[1..], packageName, classes);
      match entries[0]
      case Subdir(name, sub) =>
        ScanIsDiscovered(sub, Qualify(packageName, name), classes);
        DiscoveredUnder(name, ListEntries(sub), packageName, classes);
        DiscoveredAppend(Under(name, ListEntries(sub)), rest, packageName, classes);
      case File(name) =>
        var f := FileRef([], name);
        DiscoveredAppend([f], rest, packageName, classes);
        assert [f][1..] == [];
        assert Discovered([f], packageName, classes) == Candidate(f, packageName, classes);
        if EndsWith(name, ClassSuffix) {
          assert QualifiedName(packageName, [], Stem(name)) == Qualify(packageName, Stem(name));
        }
    }
  }

  /** The walk is the reference description: `findClasses` produces exactly
      the loadable `.class` files of the directory's recursive listing, named
      `p.d1.....dk.F` and in listing order, with each subdirectory's classes
      spliced in at the subdirectory's position. */
  lemma WalkMatchesListing(dir: Directory, packageName: string, classes: ClassTable)
    ensures FindClasses(dir, packageName, classes) == Discovered(Listing(dir), packageName, classes)
  {
    if dir.present {
      ScanIsDiscovered(dir.entries, packageName, classes);
    }
  }

  lemma {:induction false} DiscoveredMembers(fs: seq<FileRef>, packageName: string, classes: ClassTable, c: Class)
    ensures c in Discovered(fs, packageName, classes)
        <==> exists i | 0 <= i < |fs| :: Yields(fs[i], packageName, classes, c)
  {
    if fs != [] {
      DiscoveredMembers(fs[1..], packageName, classes, c);
      if exists i | 0 <= i < |fs[1..]| :: Yields(fs[1..][i], packageName, classes, c) {
        var i :| 0 <= i < |fs[1..]| && Yields(fs[1..][i], packageName, classes, c);
        assert fs[1..][i] == fs[i + 1];
      }
      if exists i | 0 <= i < |fs| :: Yields(fs[i], packageName, classes, c) {
        var i :| 0 <= i < |fs| && Yields(fs[i], packageName, classes, c);
        if i > 0 {
          assert fs[1..][i - 1] == fs[i];
        }
      }
    }
  }

  /** Both directions of what the walk finds: class `c` is found below `dir`
      if and only if some listed file is a `.class` file whose qualified name
      is `c`'s name and that name loads. In particular a file that does not
      end in `.class` contributes nothing, at any depth. */
  lemma FoundIffListedClassFile(dir: Directory, packageName: string, classes: ClassTable, c: Class)
    ensures c in FindClasses(dir, packageName, classes)
        <==> exists f | f in Listing(dir) :: Yields(f, packageName, classes, c)
  {
    WalkMatchesListing(dir, packageName, classes);
    DiscoveredMembers(Listing(dir), packageName, classes, c);
    var fs := Listing(dir);
    if exists f | f in fs :: Yields(f, packageName, classes, c) {
      var f :| f in fs && Yields(f, packageName, classes, c);
      var i :| 0 <= i < |fs| && fs[i] == f;
    }
  }

  /** Scanning a listing in two parts gives the two results one after the
      other: what one entry contributes, or fails to contribute, never affects
      its siblings. */
  lemma {:induction false} ScanAppend(a: seq<Entry>, b: seq<Entry>, packageName: string, classes: ClassTable)
    ensures Scan(a + b, packageName, classes) == Scan(a, packageName, classes) + Scan(b, packageName, classes)
  {
    if a == [] {
      assert a + b == b;
    } else {
      assert (a + b)[0] == a[0];
      assert (a + b)[1..] == a[1..] + b;
      ScanAppend(a[1..], b, packageName, classes);
    }
  }

  /** A listing of one file contributes that file's class, if it is a
      `.class` file whose name loads. */
  lemma ScanOneFile(fileName: string, packageName: string, classes: ClassTable)
    ensures Scan([File(fileName)], packageName, classes)
         == if EndsWith(fileName, ClassSuffix) then Loaded(Qualify(packageName, Stem(fileName)), classes) else []
  {
  }

  /** A listing of one subdirectory contributes what the subdirectory
      contributes when searched as the subpackage. */
  lemma ScanOneSubdir(dirName: string, sub: seq<Entry>, packageName: string, classes: ClassTable)
    ensures Scan([Subdir(dirName, sub)], packageName, classes) == Scan(sub, Qualify(packageName, dirName), classes)
  {
  }

  /** A `.class` file whose name does not load is dropped, and the entries
      before and after it are still scanned. */
  lemma UnloadableFileSkipped(before: seq<Entry>, fileName: string, after: seq<Entry>, packageName: string, classes: ClassTable)
    requires EndsWith(fileName, ClassSuffix)
    requires Qualify(packageName, Stem(fileName)) !in classes
    ensures Scan(before + [File(fileName)] + after, packageName, classes)
         == Scan(before, packageName, classes) + Scan(after, packageName, classes)
  {
    ScanAppend(before + [File(fileName)], after, packageName, classes);
    ScanAppend(before, [File(fileName)], packageName, classes);
    ScanOneFile(fileName, packageName, classes);
  }

  /** A file that is not a `.class` file is ignored wherever it is listed. */
  lemma NonClassFileIgnored(before: seq<Entry>, fileName: string, after: seq<Entry>, packageName: string, classes: ClassTable)
    requires !EndsWith(fileName, ClassSuffix)
    ensures Scan(before + [File(fileName)] + after, packageName, classes)
         == Scan(before, packageName, classes) + Scan(after, packageName, classes)
  {
    ScanAppend(before + [File(fileName)], after, packageName, classes);
    ScanAppend(before, [File(fileName)], packageName, classes);
    ScanOneFile(fileName, packageName, classes);
  }

  /** A listing holding only file `fileName`, nested in the subdirectories
      `path`, outermost first. */
  function Nest(path: seq<string>, fileName: string): (entries: seq<Entry>)
    ensures |entries| == 1
  {
    if path == [] then [File(fileName)] else [Subdir(path[0], Nest(path[1..], fileName))]
  }

  lemma {:induction false} ScanNest(path: seq<string>, fileName: string, packageName: string, classes: ClassTable)
    ensures Scan(Nest(path, fileName), packageName, classes)
         == if EndsWith(fileName, ClassSuffix)
            then Loaded(QualifiedName(packageName, path, Stem(fileName)), classes)
            else []
  {
    if path == [] {
      ScanOneFile(fileName, packageName, classes);
      if EndsWith(fileName, ClassSuffix) {
        assert QualifiedName(packageName, [], Stem(fileName)) == Qualify(packageName, Stem(fileName));
      }
    } else {
      var inner := Qualify(packageName, path[0]);
      assert Nest(path, fileName) == [Subdir(path[0], Nest(path[1..], fileName))];
      ScanOneSubdir(path[0], Nest(path[1..], fileName), packageName, classes);
      ScanNest(path[1..], fileName, inner, classes);
      if EndsWith(fileName, ClassSuffix) {
        QualifiedNameShift(packageName, path[0], path[1..], Stem(fileName));
        assert [path[0]] + path[1..] == path;
      }
    }
  }

  /** A file at `d1/.../dk/F.class` below the root of package `p` is loaded
      under exactly the name `p.d1.....dk.F`: only the trailing `.class` is
      removed. */
  lemma NestedClassFileName(path: seq<string>, fileName: string, packageName: string, classes: ClassTable)
    requires EndsWith(fileName, ClassSuffix)
    ensures FindClasses(Directory(true, Nest(path, fileName)), packageName, classes)
         == Loaded(QualifiedName(packageName, path, Stem(fileName)), classes)
    ensures Stem(fileName) + ClassSuffix == fileName
  {
    ScanNest(path, fileName, packageName, classes);
  }

  /** Three levels down: `examples/a/b/c/Deep.class` is loaded as
      `examples.a.b.c.Deep`. */
  lemma ThreeLevelsDeep(info: ClassInfo)
    ensures FindClasses(Directory(true, Nest(["a", "b", "c"], "Deep.class")), "examples",
                        map["examples.a.b.c.Deep" := info])
         == [Class("examples.a.b.c.Deep", info)]
  {
    var path := ["a", "b", "c"];
    assert EndsWith("Deep.class", ClassSuffix);
    assert Stem("Deep.class") == "Deep";
    assert Segments(["c"]) == ".c" by { assert ["c"][1..] == []; }
    assert Segments(["b", "c"]) == ".b.c" by { assert ["b", "c"][1..] == ["c"]; }
    assert Segments(path) == ".a.b.c" by { assert path[1..] == ["b", "c"]; }
    assert QualifiedName("examples", path, "Deep") == "examples.a.b.c.Deep";
    NestedClassFileName(path, "Deep.class", "examples", map["examples.a.b.c.Deep" := info]);
  }

  /** The roots' classes are appended in enumeration order, and the
      enumeration succeeds only if every part of it does. */
  lemma {:induction false} RootsAppend(a: seq<Resource>, b: seq<Resource>, packageName: string, classes: ClassTable)
    ensures FindInRoots(a + b, packageName, classes).Success?
        <==> FindInRoots(a, packageName, classes).Success? && FindInRoots(b, packageName, classes).Success?
    ensures FindInRoots(a + b, packageName, classes).Success? ==>
              FindInRoots(a + b, packageName, classes).value
              == FindInRoots(a, packageName, classes).value + FindInRoots(b, packageName, classes).value
  {
    if a == [] {
      assert a + b == b;
    } else {
      assert (a + b)[0] == a[0];
      assert (a + b)[1..] == a[1..] + b;
      RootsAppend(a[1..], b, packageName, classes);
    }
  }

  /** A root directory that does not exist contributes nothing: dropping it
      from the enumeration changes nothing. */
  lemma MissingRootContributesNothing(before: seq<Resource>, entries: seq<Entry>, after: seq<Resource>,
                                      packageName: string, classes: ClassTable)
    ensures FindInRoots(before + [Located(Directory(false, entries))] + after, packageName, classes)
         == FindInRoots(before + after, packageName, classes)
  {
    var dir := Directory(false, entries);
    var missing := [Located(dir)];
    assert missing[0] == Located(dir);
    assert missing[1..] == [];
    var rest := FindInRoots(missing[1..], packageName, classes);
    assert rest == Success([]);
    assert FindInRoots(missing, packageName, classes) == Success(FindClasses(dir, packageName, classes) + rest.value);
    assert FindClasses(dir, packageName, classes) + rest.value == [];
    assert FindInRoots(missing, packageName, classes) == Success([]);
    RootsAppend(before + missing, after, packageName, classes);
    RootsAppend(before, missing, packageName, classes);
    RootsAppend(before, after, packageName, classes);
    var lhs := FindInRoots(before + missing + after, packageName, classes);
    var rhs := FindInRoots(before + after, packageName, classes);
    if lhs.Success? {
      assert FindInRoots(before + missing, packageName, classes).value
          == FindInRoots(before, packageName, classes).value + [];
      assert FindInRoots(before, packageName, classes).value + [] == FindInRoots(before, packageName, classes).value;
    } else {
      assert lhs.error == UnusableResource == rhs.error;
    }
  }

  /** Class `c` is found below resource `root`: the root is a directory and
      some file listed below it yields `c`. */
  ghost predicate FoundBelow(root: Resource, packageName: string, classes: ClassTable, c: Class) {
    root.Located? && exists f | f in Listing(root.dir) :: Yields(f, packageName, classes, c)
  }

  lemma {:induction false} RootsMembers(roots: seq<Resource>, packageName: string, classes: ClassTable, c: Class)
    requires FindInRoots(roots, packageName, classes).Success?
    ensures c in FindInRoots(roots, packageName, classes).value
        <==> exists i | 0 <= i < |roots| :: FoundBelow(roots[i], packageName, classes, c)
  {
    if roots != [] {
      assert roots == [roots[0]] + roots[1..];
      RootsAppend([roots[0]], roots[1..], packageName, classes);
      RootsMembers(roots[1..], packageName, classes, c);
      var dir := roots[0].dir;
      assert [roots[0]][1..] == [];
      assert FindInRoots([roots[0]], packageName, classes).value == FindClasses(dir, packageName, classes);
      FoundIffListedClassFile(dir, packageName, classes, c);
      if exists i | 0 <= i < |roots[1..]| :: FoundBelow(roots[1..][i], packageName, classes, c) {
        var i :| 0 <= i < |roots[1..]| && FoundBelow(roots[1..][i], packageName, classes, c);
        assert roots[1..][i] == roots[i + 1];
      }
      if exists i | 0 <= i < |roots| :: FoundBelow(roots[i], packageName, classes, c) {
        var i :| 0 <= i < |roots| && FoundBelow(roots[i], packageName, classes, c);
        if i > 0 {
          assert roots[1..][i - 1] == roots[i];
        }
      }
    }
  }

  /** End to end: when discovery of a package succeeds, class `c` is
      discovered if and only if one of the resource roots at the package's
      path is a directory below which some listed `.class` file has `c`'s
      qualified name, and that name loads as `c`. */
  lemma GetClassesMembers(packageName: string, loader: ClassLoader, c: Class)
    requires GetClasses(packageName, loader).Success?
    ensures var path := PackageToPath(packageName);
            var roots := if path in loader.resources then loader.resources[path].roots else [];
            c in GetClasses(packageName, loader).value
            <==> exists i | 0 <= i < |roots| :: FoundBelow(roots[i], packageName, loader.classes, c)
  {
    var path := PackageToPath(packageName);
    if path in loader.resources {
      RootsMembers(loader.resources[path].roots, packageName, loader.classes, c);
    }
  }
}
