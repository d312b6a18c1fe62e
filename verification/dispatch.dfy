/** The example runner's dispatch loop: every discovered class that directly
    declares the `Example` interface is constructed with no arguments, then
    `run()` and then `cleanup()` are called on it. The three steps share one
    exception handler, so the first step that throws ends that class's
    sequence (in particular `cleanup()` is not called after a failed `run()`);
    the failure is logged and the loop carries on with the next class. */
module Dispatch {
  import opened Results
  import opened ClassPath
  import opened Discovery

  /** The fully-qualified name of the capability interface. */
  const ExampleInterface: string := "examples.Example"

  /** The steps of one example's life, in the order they are attempted. */
  datatype Stage = Construct | Run | Cleanup

  const Lifecycle: seq<Stage> := [Construct, Run, Cleanup]

  /** What the runner observably does: attempt a step on a class (and whether
      it completed or threw), or give up on the whole package because its
      classes could not be enumerated. */
  datatype Event =
    | Invoked(cls: string, stage: Stage, ok: bool)
    | DiscoveryFailed(packageName: string, error: DiscoveryError)

  /** The class declares `Example` among its own interfaces. Interfaces that
      reach the class only through a superclass or a superinterface do not
      count. */
  predicate IsExample(info: ClassInfo) {
    ExampleInterface in info.interfaces
  }

  /** Whether the given step completes without throwing for this class. */
  function Completes(info: ClassInfo, stage: Stage): bool {
    match stage
    case Construct => info.constructs
    case Run => info.runs
    case Cleanup => info.cleansUp
  }

  /** `TryRun(testClass)`. A non-example produces no events. For an example,
      the events are the lifecycle steps in order, each carrying whether it
      completed; every step but the last completed, and the sequence stops
      early only at a step that threw. */
  function TryRun(c: Class): (trace: seq<Event>)
    ensures |trace| <= |Lifecycle|
    ensures trace == [] <==> !IsExample(c.info)
    ensures forall i | 0 <= i < |trace| ::
              trace[i] == Invoked(c.name, Lifecycle[i], Completes(c.info, Lifecycle[i]))
    ensures forall i | 0 <= i < |trace| - 1 :: trace[i].ok
    ensures trace != [] && |trace| < |Lifecycle| ==> !trace[|trace| - 1].ok
  {
    if !IsExample(c.info) then []
    else if !c.info.constructs then [Invoked(c.name, Construct, false)]
    else if !c.info.runs then [Invoked(c.name, Construct, true), Invoked(c.name, Run, false)]
    else [Invoked(c.name, Construct, true), Invoked(c.name, Run, true), Invoked(c.name, Cleanup, c.info.cleansUp)]
  }

  /** `forEach(this::TryRun)` over the discovered classes, in order. */
  function RunAll(classes: seq<Class>): (trace: seq<Event>)
    ensures forall e | e in trace :: e.Invoked?
  {
    if classes == [] then [] else TryRun(classes[0]) + RunAll(classes[1..])
  }

  /** `LoadAndRunAllTestsInPackage(packageName)`. Discovery failure is caught
      and logged: the trace is then that single failure and no class is
      touched. Otherwise every discovered class is tried. Nothing is ever
      propagated to the caller: the result is a trace, not a failure. */
  function LoadAndRunAllTestsInPackage(packageName: string, loader: ClassLoader): (trace: seq<Event>)
    ensures GetClasses(packageName, loader).Failure? ==>
              trace == [DiscoveryFailed(packageName, GetClasses(packageName, loader).error)]
    ensures GetClasses(packageName, loader).Success? ==> forall e | e in trace ::
              e.Invoked? && e.cls in loader.classes && packageName + "." <= e.cls
    ensures GetClasses(packageName, loader).Success? ==>
              forall c | c in GetClasses(packageName, loader).value && IsExample(c.info) ::
                Invoked(c.name, Construct, c.info.constructs) in trace
  {
    match GetClasses(packageName, loader)
    case Failure(e) => [DiscoveryFailed(packageName, e)]
    case Success(classes) =>
      RunAllNamesFrom(classes);
      RunAllConstructsEach(classes);
      RunAll(classes)
  }

  /** Every example among the dispatched classes has its construction
      attempted. */
  lemma {:induction false} RunAllConstructsEach(classes: seq<Class>)
    ensures forall c | c in classes && IsExample(c.info) ::
              Invoked(c.name, Construct, c.info.constructs) in RunAll(classes)
  {
    if classes != [] {
      RunAllConstructsEach(classes[1..]);
      forall c | c in classes && IsExample(c.info)
        ensures Invoked(c.name, Construct, c.info.constructs) in RunAll(classes)
      {
        if c == classes[0] {
          assert TryRun(c)[0] == Invoked(c.name, Construct, c.info.constructs);
        } else {
          assert c in classes[1..];
        }
      }
    }
  }

  /** Every event of a run names one of the classes run, and that class is
      an example. */
  lemma {:induction false} RunAllNamesFrom(classes: seq<Class>)
    ensures forall e | e in RunAll(classes) ::
              exists c | c in classes :: IsExample(c.info) && e.cls == c.name
  {
    if classes != [] {
      RunAllNamesFrom(classes[1..]);
      forall e | e in RunAll(classes)
        ensures exists c | c in classes :: IsExample(c.info) && e.cls == c.name
      {
        if e in TryRun(classes[0]) {
          assert IsExample(classes[0].info) && e.cls == classes[0].name;
        } else {
          assert e in RunAll(classes[1..]);
          var c :| c in classes[1..] && IsExample(c.info) && e.cls == c.name;
          assert c in classes;
        }
      }
    }
  }

  /** Failure containment: running two batches one after the other gives the
      two traces one after the other. Whatever a class does, including
      throwing at any step, has no effect on the classes after it. */
  lemma {:induction false} RunAllAppend(a: seq<Class>, b: seq<Class>)
    ensures RunAll(a + b) == RunAll(a) + RunAll(b)
  {
    if a == [] {
      assert a + b == b;
    } else {
      assert (a + b)[0] == a[0];
      assert (a + b)[1..] == a[1..] + b;
      RunAllAppend(a[1..], b);
    }
  }

  /** The examples among `classes`, in order. */
  function Examples(classes: seq<Class>): (r: seq<Class>)
    ensures forall c | c in r :: c in classes && IsExample(c.info)
    ensures forall c | c in classes && IsExample(c.info) :: c in r
  {
    if classes == [] then []
    else if IsExample(classes[0].info) then [classes[0]] + Examples(classes[1..])
    else Examples(classes[1..])
  }

  /** The conformance filter: classes that do not declare `Example` leave no
      trace, so running everything is running only the examples. */
  lemma {:induction false} NonExamplesIgnored(classes: seq<Class>)
    ensures RunAll(classes) == RunAll(Examples(classes))
  {
    if classes != [] {
      NonExamplesIgnored(classes[1..]);
      if IsExample(classes[0].info) {
        var r := Examples(classes);
        assert r[0] == classes[0];
        assert r[1..] == Examples(classes[1..]);
      }
    }
  }

  /** A class name that belongs to no example never appears in the trace: such
      a class is never constructed, run or cleaned up. */
  lemma NonExampleNeverTouched(classes: seq<Class>, name: string)
    requires forall c | c in classes && c.name == name :: !IsExample(c.info)
    ensures forall e | e in RunAll(classes) :: e.cls != name
  {
  }

  /** How many events of `trace` are attempts of `stage`, and how many of
      those completed. */
  function Attempts(trace: seq<Event>, stage: Stage): nat {
    if trace == [] then 0
    else (if trace[0].Invoked? && trace[0].stage == stage then 1 else 0) + Attempts(trace[1..], stage)
  }

  /** How many classes reach `stage`: examples whose earlier steps all
      completed. */
  function Reaching(classes: seq<Class>, stage: Stage): nat {
    if classes == [] then 0
    else
      var info := classes[0].info;
      var reaches := match stage
        case Construct => IsExample(info)
        case Run => IsExample(info) && info.constructs
        case Cleanup => IsExample(info) && info.constructs && info.runs;
      (if reaches then 1 else 0) + Reaching(classes[1..], stage)
  }

  lemma {:induction false} AttemptsAppend(a: seq<Event>, b: seq<Event>, stage: Stage)
    ensures Attempts(a + b, stage) == Attempts(a, stage) + Attempts(b, stage)
  {
    if a == [] {
      assert a + b == b;
    } else {
      assert (a + b)[0] == a[0];
      assert (a + b)[1..] == a[1..] + b;
      AttemptsAppend(a[1..], b, stage);
    }
  }

  lemma TryRunAttempts(c: Class, stage: Stage)
    ensures Attempts(TryRun(c), stage) == Reaching([c], stage)
  {
    var t := TryRun(c);
    assert [c][1..] == [];
    if |t| == 3 {
      assert t == [t[0]] + [t[1]] + [t[2]];
      AttemptsAppend([t[0]] + [t[1]], [t[2]], stage);
      AttemptsAppend([t[0]], [t[1]], stage);
    } else if |t| == 2 {
      assert t == [t[0]] + [t[1]];
      AttemptsAppend([t[0]], [t[1]], stage);
    }
  }

  /** Exactly one construction is attempted per example, one `run()` per
      example that constructed, and one `cleanup()` per example whose
      construction and `run()` both completed: a failed construction or a
      failed `run()` means no `cleanup()`. */
  lemma {:induction false} StepCounts(classes: seq<Class>, stage: Stage)
    ensures Attempts(RunAll(classes), stage) == Reaching(classes, stage)
  {
    if classes != [] {
      StepCounts(classes[1..], stage);
      AttemptsAppend(TryRun(classes[0]), RunAll(classes[1..]), stage);
      TryRunAttempts(classes[0], stage);
      assert [classes[0]][1..] == [];
    }
  }

  /** The runner's behaviour on three example classes: `A` runs and cleans up,
      `B` throws from `run()` and is therefore not cleaned up, `C` does not
      declare `Example` and is never touched. */
  lemma Scenario()
    ensures RunAll([ Class("examples.A", ClassInfo([ExampleInterface], true, true, true)),
                     Class("examples.B", ClassInfo([ExampleInterface], true, false, true)),
                     Class("examples.C", ClassInfo([], true, true, true)) ])
         == [ Invoked("examples.A", Construct, true), Invoked("examples.A", Run, true),
              Invoked("examples.A", Cleanup, true),
              Invoked("examples.B", Construct, true), Invoked("examples.B", Run, false) ]
  {
    var a := Class("examples.A", ClassInfo([ExampleInterface], true, true, true));
    var b := Class("examples.B", ClassInfo([ExampleInterface], true, false, true));
    var c := Class("examples.C", ClassInfo([], true, true, true));
    assert !IsExample(c.info);
    RunAllAppend([a], [b, c]);
    RunAllAppend([b], [c]);
    assert [a][1..] == [] && [b][1..] == [] && [c][1..] == [];
    assert [a] + [b, c] == [a, b, c] && [b] + [c] == [b, c];
  }

  /** With no resources for the package's path, the runner touches nothing
      and reports no failure. */
  lemma NoResourcesNoEvents(packageName: string, loader: ClassLoader)
    requires PackageToPath(packageName) !in loader.resources
    ensures LoadAndRunAllTestsInPackage(packageName, loader) == []
  {
  }

  /** The step counts of a whole package run: when discovery succeeds, each
      stage is attempted once per discovered class that reaches it; when it
      fails, no stage is attempted at all. */
  lemma PackageStepCounts(packageName: string, loader: ClassLoader, stage: Stage)
    ensures GetClasses(packageName, loader).Success? ==>
              Attempts(LoadAndRunAllTestsInPackage(packageName, loader), stage)
              == Reaching(GetClasses(packageName, loader).value, stage)
    ensures GetClasses(packageName, loader).Failure? ==>
              Attempts(LoadAndRunAllTestsInPackage(packageName, loader), stage) == 0
  {
    match GetClasses(packageName, loader)
    case Success(classes) =>
      StepCounts(classes, stage);
    case Failure(e) =>
      var t := LoadAndRunAllTestsInPackage(packageName, loader);
      assert t[1..] == [];
  }
}
