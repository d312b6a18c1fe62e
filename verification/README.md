# Example runner and greeting endpoints — a Dafny model

This project models the example-runner harness of the Elements game-element
sample, plus three small endpoints of the element itself.

The runner, `TestLoader`, takes a package name such as `examples`. It asks the
context class loader for every resource directory of that package. It walks
each directory recursively and turns every `.class` file into a
fully-qualified class name. It loads each name. Then it runs every loaded
class that directly declares the `Example` interface: construct it with no
arguments, call `run()`, then call `cleanup()`. A failure in one class is
logged and the runner moves on.

The file system and reflection are plain data here:

- a `Directory` is a presence flag plus a listing of `Subdir` and `File` entries;
- a `ClassLoader` maps resource paths to resource lists, and class names to `ClassInfo`;
- a `ClassInfo` holds the directly declared interfaces and whether the constructor, `run()` and `cleanup()` complete.

What the runner does is a trace of `Invoked(class, stage, ok)` events. When the
package cannot be enumerated, the trace is a single `DiscoveryFailed` event.

The endpoints are total functions of the current user or request:

- `GreetingServiceImpl.getGreeting` and `HelloWorld.sayHello` take a `User` record with a `Level`;
- `ExampleContent`'s POST and PUT handlers copy request fields into a fresh response record.

Files:

- `results.dfy`: `Option` and `Result`.
- `classpath.dfy`: the data model, package-to-path mapping, `.class` suffix handling, `Class.forName`.
- `discovery.dfy`: `findClasses` and `getClasses`, with a reference "list all files, then name them" description proved equal to the walk.
- `dispatch.dfy`: `TryRun`, the dispatch loop and `LoadAndRunAllTestsInPackage`.
- `greetings.dfy`: `getGreeting` (as written and corrected) and `sayHello`.
- `content.dfy`: the `/examplecontent` handlers.

Three behaviours of the runner are easy to misread:

- After `run()` throws, `cleanup()` is **not** called. `run()` and `cleanup()` share one `try` block (src/test/java/util/TestLoader.java:36-46).
- If the class loader returns no resources for the package path, the runner finds no classes. It reports no error (src/test/java/util/TestLoader.java:64-75).
- Some errors abort the whole enumeration, and the classes already found from earlier roots are discarded. These are an I/O failure of the resource lookup, and a resource whose URI cannot be turned into a directory. The runner's outer `catch` logs the error and runs nothing (src/test/java/util/TestLoader.java:22-26, 77-81).

## Model

| member | source | states |
|---|---|---|
| ClassPath.ReplaceChar | src/test/java/util/TestLoader.java:60 | `String.replace(char, char)`: same length, every `from` becomes `to`, every other character is unchanged |
| ClassPath.PackageToPath | src/test/java/util/TestLoader.java:60 | the resource path has the package name's length, every `.` becomes `/`, no `.` is left, and every other character stays in place |
| ClassPath.PathRoundTrip | src/test/java/util/TestLoader.java:60 | for a package name without `/`, replacing `/` back by `.` in its path gives the name again |
| ClassPath.PackageToPathInjective | src/test/java/util/TestLoader.java:60 | two slash-free package names with the same resource path are equal |
| ClassPath.SlashCollision | src/test/java/util/TestLoader.java:60 | with a `/` in the name the mapping is not injective: `a.b` and `a/b` share the path `a/b` |
| ClassPath.Stem | src/test/java/util/TestLoader.java:102-113 | removing the suffix shortens a `.class` file name by exactly 6 characters, and appending `.class` gives the file name back |
| Discovery.Loaded | src/test/java/util/TestLoader.java:112-116 | loading a name contributes one class if the name loads and none otherwise (the `ClassNotFoundException` case) |
| Discovery.Scan | src/test/java/util/TestLoader.java:104-118 | every class the listing loop finds is loadable, carries its table entry, and has a name below `packageName.` |
| Discovery.FindClasses | src/test/java/util/TestLoader.java:91-121 | a directory that does not exist yields nothing; every class found is loadable and named below the package |
| Discovery.FindInRoots | src/test/java/util/TestLoader.java:64-79 | enumeration succeeds exactly when every resource is a usable directory; no resources give the empty list; otherwise the error is an unusable resource |
| Discovery.GetClasses | src/test/java/util/TestLoader.java:57-82 | the loader is queried at the package's path; no resources give the empty list; a failed lookup fails discovery; discovery fails exactly when some root is unusable; every class found is loadable and below the package |
| Discovery.QualifiedNameShift | src/test/java/util/TestLoader.java:108 | naming a class from subpackage `p.d` through path `ds` is the same as naming it from `p` through `d, ds` |
| Discovery.DiscoveredUnder | src/test/java/util/TestLoader.java:108 | searching subdirectory `d` as package `p.d` names its files exactly as searching the parent names them through `d` |
| Discovery.CandidateUnder | src/test/java/util/TestLoader.java:108 | one file seen through subdirectory `d` from package `p` yields the same class as the file seen from package `p.d` |
| Discovery.ScanIsDiscovered | src/test/java/util/TestLoader.java:104-118 | the listing loop equals the reference: list every file depth-first, then load each `.class` file under its qualified name |
| Discovery.WalkMatchesListing | src/test/java/util/TestLoader.java:91-121 | `findClasses` yields the loadable `.class` files of the recursive listing, in listing order, with subdirectories spliced in at their position |
| Discovery.FoundIffListedClassFile | src/test/java/util/TestLoader.java:104-118 | a class is found iff some listed file ends in `.class`, its qualified name `p.d1…dk.F` is the class's name, and that name loads; so a non-`.class` file never contributes at any depth |
| Discovery.ScanAppend | src/test/java/util/TestLoader.java:104-118 | scanning two listings in turn gives the two results in turn: entries do not affect their siblings |
| Discovery.ScanOneFile | src/test/java/util/TestLoader.java:110-116 | a lone file contributes its loaded class if it ends in `.class`, and nothing otherwise |
| Discovery.ScanOneSubdir | src/test/java/util/TestLoader.java:106-108 | a lone subdirectory contributes what it contributes when searched as the subpackage |
| Discovery.UnloadableFileSkipped | src/test/java/util/TestLoader.java:112-116 | a `.class` file whose name does not load is dropped, and the entries before and after it are still scanned |
| Discovery.NonClassFileIgnored | src/test/java/util/TestLoader.java:110 | a file not ending in `.class` adds nothing wherever it is listed |
| Discovery.ScanNest | src/test/java/util/TestLoader.java:106-113 | a file nested under directories `d1…dk` contributes exactly the class named `p.d1…dk.stem`, if it is a `.class` file that loads |
| Discovery.NestedClassFileName | src/test/java/util/TestLoader.java:108-113 | `d1/…/dk/F.class` under package `p` loads as exactly `p.d1.….dk.F`; only the trailing `.class` is removed |
| Discovery.ThreeLevelsDeep | src/test/java/util/TestLoader.java:104-118 | `examples/a/b/c/Deep.class` is found as `examples.a.b.c.Deep` |
| Discovery.RootsAppend | src/test/java/util/TestLoader.java:66-73 | results of several roots are appended in enumeration order; enumeration succeeds only if every part does |
| Discovery.RootsMembers | src/test/java/util/TestLoader.java:66-73 | when enumeration succeeds, a class is in the result iff some root is a directory below which a listed `.class` file yields it |
| Discovery.GetClassesMembers | src/test/java/util/TestLoader.java:57-121 | end to end: a class is discovered iff one of the roots at the package's path lists a `.class` file whose qualified name `p.d1…dk.F` loads as that class |
| Discovery.MissingRootContributesNothing | src/test/java/util/TestLoader.java:95-97 | a resource root that does not exist can be dropped without changing the outcome |
| Dispatch.TryRun | src/test/java/util/TestLoader.java:30-48 | no events for a class that does not declare `Example`; otherwise construct, run, cleanup in that order, each recording its outcome, and stopping right after the first failing step |
| Dispatch.RunAll | src/test/java/util/TestLoader.java:23 | the dispatch loop only ever invokes lifecycle steps |
| Dispatch.LoadAndRunAllTestsInPackage | src/test/java/util/TestLoader.java:20-28 | a discovery failure becomes one logged event and nothing runs; otherwise every discovered example has its construction attempted, and every event is a lifecycle step of a loadable class below the package; nothing propagates |
| Dispatch.RunAllConstructsEach | src/test/java/util/TestLoader.java:32-38 | every dispatched class that declares `Example` has its construction attempted, with its outcome recorded |
| Dispatch.PackageStepCounts | src/test/java/util/TestLoader.java:20-46 | for a whole package run, each stage is attempted once per discovered class that reaches it, and no stage at all when discovery fails |
| Dispatch.RunAllNamesFrom | src/test/java/util/TestLoader.java:32-34 | every event names a dispatched class that declares `Example` |
| Dispatch.RunAllAppend | src/test/java/util/TestLoader.java:23 | failure containment: the trace of two batches is the two traces in turn, so no class's failure affects a later class |
| Dispatch.NonExamplesIgnored | src/test/java/util/TestLoader.java:32-34 | running all classes is the same as running only those that declare `Example` |
| Dispatch.NonExampleNeverTouched | src/test/java/util/TestLoader.java:32-34 | a name that belongs to no example never appears in the trace |
| Dispatch.TryRunAttempts | src/test/java/util/TestLoader.java:36-46 | one class attempts a stage exactly when it is an example and all its earlier stages completed |
| Dispatch.StepCounts | src/test/java/util/TestLoader.java:36-46 | construct attempts equal the number of examples; `run()` calls equal the examples that constructed; `cleanup()` calls equal the examples whose construction and `run()` completed |
| Dispatch.Scenario | src/test/java/util/TestLoader.java:30-48 | A succeeds, B's `run()` throws, C is no example: A constructs, runs, cleans up; B constructs and fails in `run()`, with no cleanup; C leaves no trace |
| Dispatch.NoResourcesNoEvents | src/test/java/util/TestLoader.java:64-75 | a package path without resources leads to an empty trace and no failure |
| Greetings.GetGreeting | src/main/java/com/mystudio/mygame/service/GreetingServiceImpl.java:25-29 | the greeting is `"Hello, " + x + "!"` with `x` the user's name at UNPRIVILEGED and `Guest` otherwise |
| Greetings.GreetingShape | src/main/java/com/mystudio/mygame/service/GreetingServiceImpl.java:26-29 | an UNPRIVILEGED user gets `Hello, <name>!`; any other user gets exactly `Hello, Guest!` |
| Greetings.SayHello | src/main/java/com/mystudio/mygame/rest/HelloWorld.java:27-31 | an UNPRIVILEGED user gets exactly the not-logged-in message; any other user gets a greeting of their name |
| Greetings.SayHelloBranchesDistinct | src/main/java/com/mystudio/mygame/rest/HelloWorld.java:29-31 | the reply starts with `Hello, ` iff the user is not UNPRIVILEGED, and is the sorry message iff they are |
| Greetings.OnlyLevelAndNameMatter | src/main/java/com/mystudio/mygame/service/GreetingServiceImpl.java:25-29 | two users with equal level and name get equal replies from both endpoints |
| Greetings.EndpointsDisagree | src/main/java/com/mystudio/mygame/rest/HelloWorld.java:29-31 | for the same user the two endpoints answer oppositely: named vs Guest above UNPRIVILEGED, sorry vs named at UNPRIVILEGED |
| Greetings.LoggedInUserGreetedAsGuest | src/main/java/com/mystudio/mygame/service/GreetingServiceImpl.java:26-27 | a logged-in USER named alice gets `Hello, Guest!`, not a greeting of her name |
| Greetings.GetGreetingIntended | element/src/main/java/com/mystudio/mygame/service/GreetingService.java:8-12 | the corrected greeting names the user exactly when they are above UNPRIVILEGED and says Guest otherwise |
| Greetings.IntendedGreetingAgreesWithSayHello | src/main/java/com/mystudio/mygame/service/GreetingServiceImpl.java:26-27 | the corrected greeting equals `sayHello`'s reply for every logged-in user and is `Hello, Guest!` for UNPRIVILEGED ones |
| ExampleContent.ExamplePost | element/src/main/java/com/mystudio/mygame/rest/ExampleContent.java:24-33 | the POST response's name is the request's name, its type stays `ExamplePostResponse`, and it has no metadata |
| ExampleContent.ExamplePut | element/src/main/java/com/mystudio/mygame/rest/ExampleContent.java:39-48 | the PUT response's name is the request's name and it has no metadata |
| ExampleContent.ExamplePutWithPathParam | element/src/main/java/com/mystudio/mygame/rest/ExampleContent.java:55-65 | the name comes from the body, and the metadata is exactly the one entry `name ↦ path parameter` |
| ExampleContent.PathParamOnlyInMetadata | element/src/main/java/com/mystudio/mygame/rest/ExampleContent.java:59-62 | the path-parameter PUT equals the plain PUT apart from its metadata |
| ExampleContent.ResponsesDetermineName | element/src/main/java/com/mystudio/mygame/rest/ExampleContent.java:28-32 | each handler's response determines the request's name and ignores everything else in the request |

## Findings

| source | as written | input that shows it | evidently intended | confidence | as-written member | corrected member |
|---|---|---|---|---|---|---|
| src/main/java/com/mystudio/mygame/service/GreetingServiceImpl.java:26-27 | `isLoggedIn` is true exactly for UNPRIVILEGED users, so only they are greeted by name | a USER-level user named `alice` gets `Hello, Guest!` | a logged-in user (above UNPRIVILEGED) is greeted by name, as the interface's documentation and `HelloWorld.sayHello` do | medium; not executed | Greetings.LoggedInUserGreetedAsGuest | Greetings.GetGreetingIntended |

The as-written behaviour is modelled by `Greetings.GetGreeting`. The corrected
one is `Greetings.GetGreetingIntended`, and `Greetings.IntendedGreetingAgreesWithSayHello`
proves it agrees with `sayHello` for logged-in users.

## Left out

- Real class loading, `Thread.getContextClassLoader`, `URI` and `File` handling, and `listFiles` are replaced by the `ClassLoader`, `Resource` and `Directory` data. A listed subdirectory is taken to exist, so only a resource root can be missing. Directories are always listable; `assert files != null` is not modelled.
- `Discovery.FindInRoots`: an unusable resource stands for both a `URISyntaxException` and an opaque URI without a path. The second throws a `NullPointerException` that escapes `getClasses` rather than being caught there. Both end in the same logged failure with nothing run, so one error kind covers them.
- Directory trees are finite, so a symbolic-link cycle cannot be expressed. On such a cycle `findClasses` would recurse until a `StackOverflowError` escapes the runner.
- Errors that are not `Exception`s, such as `ExceptionInInitializerError` out of `Class.forName` or an `Error` out of `run()`, would escape the runner. They are not modelled.
- Log message text is not modelled. A failed step is an `Invoked(…, false)` event, and a discovery failure is a `DiscoveryFailed` event. A class name that fails to load is dropped without an event.
- The bodies of `Example` implementations are DAO and database calls. `run()` and `cleanup()` are opaque success flags in `ClassInfo`.
- The runner collects every class before running any, and the model does the same. Class static initialisers that `Class.forName` would trigger are not modelled.
- Duplicate class names reachable from two roots are kept, and such a class runs twice, as in the code.
- `ExampleContent.ExamplePut`: the PUT request and response classes are not part of this model. Their default `requestType` is taken to be `ExamplePutResponse`, by analogy with the POST response. The contract only says the handler leaves that default alone.
- Request bean validation (`@NotNull`, the `NO_WHITE_SPACE` pattern) is not modelled; the pattern's value is not visible.
- Users: the user lookup through the element registry and the injected `UserService` becomes a `User` parameter. A null user, null level or null name is not modelled.
- `HelloWithAuthentication` and `HelloWorldWithAuthentication` only delegate to `GreetingService.getGreeting`, so they are not modelled separately.
- Not modelled, as process wiring with no logic of its own: the `CoreServiceLocator` singleton, every `main` entry point and bootstrap, the `HelloWorldApplication` classes, `OpenAPISecurityConfig`, the Guice module, and `package-info`.
